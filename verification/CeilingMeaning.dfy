// What the ceiling rule's demands are of the traffic a step schedules
// (internal/admission/ceiling.go): its dispatches in a window, their tokens, the day's
// cells, and what they are worth in the ledger.
module CeilingMeaning {
  import opened Prelude
  import opened Ledger
  import Edition
  import Reading = LedgerReading
  import C = Ceiling
  import L = Ladder

  // ----- rates, of the dispatches in a window

  /** At a rate, n windows of so many seconds hold n times d dispatches, less a part of one. */
  ghost predicate HoldsIn(rate: real, seconds: nat, d: real, n: nat)
    requires rate > 0.0
  {
    var sent := L.DeterministicCount(rate, n * seconds * SECOND) as real;
    sent <= n as real * d < sent + 1.0
  }

  /** Any number of windows do, so d is the dispatches of one on average. */
  ghost predicate Holds(rate: real, seconds: nat, d: real)
    requires rate > 0.0
  {
    forall n: nat :: HoldsIn(rate, seconds, d, n)
  }

  lemma WindowHolds(rate: real, seconds: nat, n: nat)
    requires rate > 0.0
    ensures L.DeterministicCount(rate, n * seconds * SECOND) == (n as real * (seconds as real * rate)).Floor
  {
    var s := n * seconds;
    assert (s * SECOND) as real / 1_000_000_000.0 == s as real;
    assert s as real == n as real * seconds as real;
    assert s as real * rate == n as real * (seconds as real * rate);
  }

  lemma RateHolds(rate: real, seconds: nat, d: real)
    requires rate > 0.0 && d == seconds as real * rate
    ensures Holds(rate, seconds, d)
  {
    forall n: nat
      ensures HoldsIn(rate, seconds, d, n)
    {
      WindowHolds(rate, seconds, n);
    }
  }

  /** Only one demand does. */
  lemma HoldsOne(rate: real, seconds: nat, d: real, e: real)
    requires rate > 0.0 && Holds(rate, seconds, d) && Holds(rate, seconds, e)
    ensures d == e
  {
    if d != e {
      var n := Apart(rate, seconds, if d < e then d else e, if d < e then e else d);
    }
  }

  /** Where two demands differ, enough windows tell them apart. */
  lemma Apart(rate: real, seconds: nat, d: real, e: real) returns (n: nat)
    requires rate > 0.0 && d < e
    ensures HoldsIn(rate, seconds, d, n) ==> !HoldsIn(rate, seconds, e, n)
  {
    var gap := e - d;
    n := (1.0 / gap).Floor + 1;
    Stretch(n as real, gap);
    assert n as real * e == n as real * d + n as real * gap;
  }

  lemma Stretch(n: real, gap: real)
    requires gap > 0.0 && n >= 1.0 / gap
    ensures n * gap >= 1.0
  {
    assert 1.0 / gap * gap == 1.0;
    assert (n - 1.0 / gap) * gap >= 0.0;
  }

  /** A request limit's demand is the step's dispatches in its window, and a concurrency
      limit's those begun within one timeout. */
  lemma RatesMean(cfg: C.Config, l: C.Limit, rate: real, cell: int, plan: C.Plan, prices: C.Prices)
    requires rate > 0.0 && cfg.timeoutS >= 0
    ensures Holds(rate, 60, C.LimitDemand(cfg, l.(dimension := C.PerMinute), rate, cell, plan, prices))
    ensures Holds(rate, 1, C.LimitDemand(cfg, l.(dimension := C.PerSecond), rate, cell, plan, prices))
    ensures Holds(rate, cfg.timeoutS, C.LimitDemand(cfg, l.(dimension := C.Concurrency), rate, cell, plan, prices))
  {
    TimesIs(cfg.timeoutS, rate);
    RateHolds(rate, 60, rate * 60.0);
    RateHolds(rate, 1, rate);
    RateHolds(rate, cfg.timeoutS, Times(cfg.timeoutS, rate));
  }

  // ----- tokens, of one request

  /** What the counting makes of some input and some output tokens. */
  ghost function Counted(l: C.Limit, input: real, output: real): real {
    match l.counting
    case InputOnly => input
    case InputAndOutput => input + output
    case OutputBurndown => input + l.burndown * output
  }

  /** n tokens of each of some requests. */
  ghost function Each(requests: real, n: int): real { requests * n as real }

  /** A minute's token limits count its dispatches' tokens: the input, the output, or what the
      counting makes of both. */
  lemma MinuteTokens(cfg: C.Config, l: C.Limit, rate: real, minute: real, cell: int, plan: C.Plan, prices: C.Prices)
    requires rate > 0.0 && Holds(rate, 60, minute)
    ensures var d := C.LimitDemand(cfg, l, rate, cell, plan, prices);
      && (l.dimension.InputPerMinute? ==> d == Each(minute, cfg.input))
      && (l.dimension.OutputPerMinute? ==> d == Each(minute, cfg.ceiling))
      && (l.dimension.TokensPerMinute? ==> d == Counted(l, Each(minute, cfg.input), Each(minute, cfg.ceiling)))
  {
    RateHolds(rate, 60, rate * 60.0);
    HoldsOne(rate, 60, minute, rate * 60.0);
    match l.dimension
    case InputPerMinute => TimesIs(cfg.input, rate * 60.0);
    case OutputPerMinute => TimesIs(cfg.ceiling, rate * 60.0);
    case TokensPerMinute => Spread(rate * 60.0, cfg, l);
    case _ =>
  }

  /** A day's token limit counts its requests' tokens. */
  lemma DayTokens(cfg: C.Config, l: C.Limit, rate: real, cell: int, plan: C.Plan, prices: C.Prices)
    requires l.dimension.TokensPerDay?
    ensures var day := (plan.dayCells * cell) as real;
      C.LimitDemand(cfg, l, rate, cell, plan, prices) == Counted(l, Each(day, cfg.input), Each(day, cfg.ceiling))
  {
    TimesIs(plan.dayCells * cell, C.TokensOf(cfg, l));
    Spread((plan.dayCells * cell) as real, cfg, l);
  }

  lemma Spread(x: real, cfg: C.Config, l: C.Limit)
    ensures x * C.TokensOf(cfg, l) == Counted(l, Each(x, cfg.input), Each(x, cfg.ceiling))
  {
    var i, o, b := cfg.input as real, cfg.ceiling as real, l.burndown;
    TimesIs(cfg.ceiling, b);
    match l.counting
    case InputOnly =>
    case InputAndOutput =>
      assert (cfg.input + cfg.ceiling) as real == i + o;
      assert x * (i + o) == x * i + x * o;
    case OutputBurndown =>
      assert x * (i + o * b) == x * i + b * (x * o);
  }

  // ----- a day's cells, and an edition's

  /** A cell's requests up to a step are a ladder's dispatches to that step's end, of any
      ladder with the plan's counts. */
  lemma {:induction false} CellIsLadder(plan: C.Plan, cfg: L.Config, l: L.Ladder, k: nat)
    requires L.WellFormed(l, cfg) && k < |l.steps| == |plan.stepRequests| && l.steps[0].first == plan.warmup
    requires forall j :: 0 <= j < |l.steps| ==> l.steps[j].end - l.steps[j].first == plan.stepRequests[j]
    ensures C.CellRequests(plan, k) == l.steps[k].end
  {
    assert L.StepWell(l, cfg, k);
    if k > 0 {
      CellIsLadder(plan, cfg, l, k - 1);
    }
  }

  /** Requests at the cells' bounds and at the probes'. */
  ghost function Traffic(cfg: C.Config, cells: int, probes: int): map<Tokens, int>
    requires cfg.ceiling != cfg.probeCeiling
  {
    map[Tokens(cfg.input, cfg.ceiling) := cells, Tokens(cfg.input, cfg.probeCeiling) := probes]
  }

  ghost function PricesAt(cfg: C.Config, prices: C.Prices): map<Tokens, Usd>
    requires cfg.ceiling != cfg.probeCeiling
  {
    map[Tokens(cfg.input, cfg.ceiling) := prices.c, Tokens(cfg.input, cfg.probeCeiling) := prices.cProbe]
  }

  lemma TrafficWorth(cfg: C.Config, cells: int, probes: int, prices: C.Prices)
    requires cfg.ceiling != cfg.probeCeiling
    ensures Worth(Traffic(cfg, cells, probes), PricesAt(cfg, prices)) == Times(cells, prices.c) + Times(probes, prices.cProbe)
  {
    var own, probe := Tokens(cfg.input, cfg.ceiling), Tokens(cfg.input, cfg.probeCeiling);
    Edition.WorthOfTwo(Traffic(cfg, cells, probes), PricesAt(cfg, prices), own, probe);
  }

  /** An edition's cost: each cell's requests at the cells' price, and the probes at theirs. */
  ghost function Cost(cells: int, cell: int, probes: int, prices: C.Prices): real {
    Times(cells, Times(cell, prices.c)) + Times(probes, prices.cProbe)
  }

  lemma {:induction false} TimesTimes(a: int, b: int, x: real)
    ensures Times(a * b, x) == Times(a, Times(b, x))
    decreases if a < 0 then -a else a
  {
    if a > 0 {
      TimesTimes(a - 1, b, x);
      assert a * b == (a - 1) * b + b;
      TimesAdd((a - 1) * b, b, x);
    } else if a < 0 {
      TimesTimes(a + 1, b, x);
      assert (a + 1) * b == a * b + b;
      TimesAdd(a * b, b, x);
    }
  }

  lemma CostIs(plan: C.Plan, cell: int, prices: C.Prices)
    ensures C.EditionUSD(prices, plan, cell) == Cost(plan.cells, cell, plan.probes, prices)
    ensures C.CellUSD(prices, cell) == Cost(1, cell, 0, prices)
  {
    TimesTimes(plan.cells, cell, prices.c);
    TimesStep(1, Times(cell, prices.c));
  }

  /** The day's demand is its cells' requests, and the spend demands are what they cost: the
      edition's cells and probes, one cell, and a window's dispatches at the step's rate. */
  lemma SpendMeans(cfg: C.Config, l: C.Limit, rate: real, cell: int, plan: C.Plan, prices: C.Prices)
    ensures C.LimitDemand(cfg, l.(dimension := C.PerDay), rate, cell, plan, prices) == (plan.dayCells * cell) as real
    ensures C.LimitDemand(cfg, l.(dimension := C.SpendMonth), rate, cell, plan, prices)
         == Cost(plan.cells, cell, plan.probes, prices)
    ensures C.LimitDemand(cfg, l.(dimension := C.ReloadThreshold), rate, cell, plan, prices) == Cost(1, cell, 0, prices)
    ensures C.LimitDemand(cfg, l.(dimension := C.SpendWindow), rate, cell, plan, prices)
         == C.LimitDemand(cfg, l.(dimension := C.PerSecond), rate, cell, plan, prices) * l.windowS * prices.c
  {
    CostIs(plan, cell, prices);
  }

  /** And what the ledger counts just such requests at. */
  lemma CostIsWorth(cfg: C.Config, cells: int, cell: int, probes: int, prices: C.Prices)
    requires cfg.ceiling != cfg.probeCeiling
    ensures Cost(cells, cell, probes, prices) == Worth(Traffic(cfg, cells * cell, probes), PricesAt(cfg, prices))
  {
    TrafficWorth(cfg, cells * cell, probes, prices);
    TimesTimes(cells, cell, prices.c);
  }

  // ----- what the rule refuses

  /** A plan fits a ladder exactly when it has a count for every step, a day with some of its
      cells, and nothing negative. */
  lemma PlanExactly(cfg: C.Config, plan: C.Plan)
    ensures C.PlanFits(cfg, plan) <==>
      && |plan.stepRequests| == |cfg.steps| && 0 < plan.dayCells <= plan.cells
      && plan.warmup >= 0 && plan.probes >= 0 && forall n :: n in plan.stepRequests ==> n >= 0
  {
    assert forall k :: 0 <= k < |plan.stepRequests| ==> plan.stepRequests[k] in plan.stepRequests;
  }

  // ----- the prices

  /** The rule's prices are what a request costs at the route's ceiling, and at the probe's. */
  lemma PricesExactly(cfg: C.Config, p: ListPrice)
    requires C.ValidConfig(cfg)
    ensures C.PricesOf(cfg, p).Some? <==> Reading.Listable(cfg.route, p.(tokens := Tokens(cfg.input, cfg.ceiling)))
    ensures C.PricesOf(cfg, p).Some? ==>
      && Reading.Costs(p.(tokens := Tokens(cfg.input, cfg.ceiling)), C.PricesOf(cfg, p).value.c)
      && Reading.Costs(p.(tokens := Tokens(cfg.input, cfg.probeCeiling)), C.PricesOf(cfg, p).value.cProbe)
  {
    Reading.PriceExactly(cfg.route, p.(tokens := Tokens(cfg.input, cfg.ceiling)));
    Reading.PriceExactly(cfg.route, p.(tokens := Tokens(cfg.input, cfg.probeCeiling)));
  }

  // ----- the tests

  /** A step's tests are of the limits in their order, then the unpublished ones, then the route's cap. */
  lemma TestsInOrder(cfg: C.Config, k: nat, plan: C.Plan, prices: C.Prices, i: nat)
    requires k < |cfg.steps| == |plan.stepRequests| && i <= |cfg.limits| + cfg.unpublished
    ensures var tests, n := C.Tests(cfg, k, plan, prices), |cfg.limits|;
      && |tests| == n + cfg.unpublished + 1
      && tests[i].against == (if i < n then C.Published(i) else if i < n + cfg.unpublished then C.Unpublished(i - n) else C.RouteCap)
      && tests[i].half == (i < n && cfg.limits[i].dimension != C.SpendMonth && cfg.limits[i].dimension != C.ReloadThreshold)
  {
  }

  /** Every test at its own bound: the monthly spend and the reload threshold cover their
      demand, every other limit twice it; half a request a second for a limit that is not
      published; the route's cap the edition. */
  lemma TestsExactly(cfg: C.Config, k: nat, plan: C.Plan, prices: C.Prices)
    requires k < |cfg.steps| == |plan.stepRequests|
    ensures var cell := C.CellRequests(plan, k);
      C.Admits(cfg, k, plan, prices) <==>
        && (forall i :: 0 <= i < |cfg.limits| ==> Covered(cfg, cfg.limits[i], cfg.steps[k], cell, plan, prices))
        && (cfg.unpublished > 0 ==> 2.0 * cfg.steps[k] <= 1.0)
        && Cost(plan.cells, cell, plan.probes, prices) <= cfg.routeCap
  {
    CostIs(plan, C.CellRequests(plan, k), prices);
    forall i | 0 <= i < |cfg.limits|
      ensures C.LimitTest(cfg, i, k, plan, prices).pass
         <==> Covered(cfg, cfg.limits[i], cfg.steps[k], C.CellRequests(plan, k), plan, prices)
    {
      LimitExactly(cfg, i, k, plan, prices);
    }
    assert forall i :: C.UnpublishedTest(cfg, i, k).pass <==> 2.0 * cfg.steps[k] <= 1.0;
    assert cfg.unpublished > 0 ==> (C.UnpublishedTest(cfg, 0, k).pass <==> 2.0 * cfg.steps[k] <= 1.0);
  }

  lemma LimitExactly(cfg: C.Config, i: nat, k: nat, plan: C.Plan, prices: C.Prices)
    requires i < |cfg.limits| && k < |cfg.steps| == |plan.stepRequests|
    ensures C.LimitTest(cfg, i, k, plan, prices).pass
       <==> Covered(cfg, cfg.limits[i], cfg.steps[k], C.CellRequests(plan, k), plan, prices)
  {
    var d := C.LimitDemand(cfg, cfg.limits[i], cfg.steps[k], C.CellRequests(plan, k), plan, prices);
    assert C.LimitTest(cfg, i, k, plan, prices).demand == d;
  }

  ghost predicate Covered(cfg: C.Config, l: C.Limit, rate: real, cell: int, plan: C.Plan, prices: C.Prices) {
    var d := C.LimitDemand(cfg, l, rate, cell, plan, prices);
    if l.dimension == C.SpendMonth || l.dimension == C.ReloadThreshold then d <= l.value else 2.0 * d <= l.value
  }
}
