// The ceiling rule (internal/admission/ceiling.go): which ladder steps a route's
// limits, caps and price admit; and its re-application at a cell's start
// (limitsStop in cmd/percentes-release/close.go).
module Ceiling {
  import opened Prelude
  import Ledger

  type Usd = Ledger.Usd

  datatype Dimension =
    | PerMinute | PerSecond | TokensPerMinute | InputPerMinute | OutputPerMinute | Concurrency
    | PerDay | TokensPerDay | SpendWindow | SpendMonth | ReloadThreshold

  datatype Counting = InputAndOutput | InputOnly | OutputBurndown

  datatype Limit = Limit(dimension: Dimension, value: real, windowS: real, counting: Counting, burndown: real)

  /** A release route's configuration, as far as the rule reads it. */
  datatype Config = Config(route: string, steps: seq<real>, limits: seq<Limit>, unpublished: nat,
                           input: int, ceiling: int, probeCeiling: int, timeoutS: int, routeCap: real)

  datatype Plan = Plan(warmup: int, stepRequests: seq<int>, cells: int, dayCells: int, probes: int)

  /** The rate an unpublished limit caps a step at. */
  const UNPUBLISHED_CAP_RPS := 0.5

  datatype Against = Published(index: nat) | Unpublished(index: nat) | RouteCap

  datatype Demand = Demand(against: Against, demand: real, half: bool, pass: bool)

  datatype Step = Step(rps: real, admitted: bool, binding: Option<Demand>, demands: seq<Demand>)

  datatype Verdict = Verdict(perRequest: real, probe: real, topRps: real, cell: real, edition: real, steps: seq<Step>)

  // ----- what a valid configuration and plan are

  predicate ValidLimit(l: Limit) {
    l.value > 0.0 && l.windowS >= 0.0 && l.burndown >= 0.0
  }

  predicate ValidConfig(cfg: Config) {
    && cfg.route != "" && |cfg.steps| > 0
    && (forall k :: 0 <= k < |cfg.steps| ==> cfg.steps[k] > 0.0)
    && (forall j, k :: 0 <= j < k < |cfg.steps| ==> cfg.steps[j] <= cfg.steps[k])
    && (forall i :: 0 <= i < |cfg.limits| ==> ValidLimit(cfg.limits[i]))
    && cfg.input >= 1 && 1 <= cfg.ceiling <= cfg.probeCeiling && cfg.timeoutS >= 0 && cfg.routeCap > 0.0
  }

  predicate PlanFits(cfg: Config, plan: Plan) {
    && |plan.stepRequests| == |cfg.steps|
    && plan.warmup >= 0 && 1 <= plan.dayCells <= plan.cells && plan.probes >= 0
    && forall k :: 0 <= k < |plan.stepRequests| ==> plan.stepRequests[k] >= 0
  }

  // ----- one test

  /** One cell's requests up to step k. */
  function CellRequests(plan: Plan, k: nat): int
    requires k < |plan.stepRequests|
  {
    (if k == 0 then plan.warmup else CellRequests(plan, k - 1)) + plan.stepRequests[k]
  }

  /** A price at the route's ceiling (c) and at the probe's (cProbe). */
  datatype Prices = Prices(c: Usd, cProbe: Usd)

  function CellUSD(prices: Prices, cell: int): real {
    Times(cell, prices.c)
  }

  function EditionUSD(prices: Prices, plan: Plan, cell: int): real {
    Times(plan.cells * cell, prices.c) + Times(plan.probes, prices.cProbe)
  }

  /** One request's tokens under the limit's counting. */
  function TokensOf(cfg: Config, l: Limit): real {
    match l.counting
    case InputOnly => cfg.input as real
    case OutputBurndown => cfg.input as real + Times(cfg.ceiling, l.burndown)
    case InputAndOutput => (cfg.input + cfg.ceiling) as real
  }

  function LimitDemand(cfg: Config, l: Limit, r: real, cell: int, plan: Plan, prices: Prices): real {
    match l.dimension
    case PerMinute => r * 60.0
    case PerSecond => r
    case TokensPerMinute => r * 60.0 * TokensOf(cfg, l)
    case InputPerMinute => Times(cfg.input, r * 60.0)
    case OutputPerMinute => Times(cfg.ceiling, r * 60.0)
    case Concurrency => Times(cfg.timeoutS, r)
    case PerDay => (plan.dayCells * cell) as real
    case TokensPerDay => Times(plan.dayCells * cell, TokensOf(cfg, l))
    case SpendWindow => r * l.windowS * prices.c
    case SpendMonth => EditionUSD(prices, plan, cell)
    case ReloadThreshold => CellUSD(prices, cell)
  }

  /** A half test admits a demand of at most half the limit, a cover test of at most the limit. */
  predicate HalfTest(l: Limit) {
    !l.dimension.SpendMonth? && !l.dimension.ReloadThreshold?
  }

  function DemandOn(against: Against, value: real, d: real, half: bool): Demand {
    Demand(against, d, half, d <= (if half then value / 2.0 else value))
  }

  function LimitTest(cfg: Config, i: nat, k: nat, plan: Plan, prices: Prices): Demand
    requires i < |cfg.limits| && k < |cfg.steps| == |plan.stepRequests|
  {
    var l := cfg.limits[i];
    DemandOn(Published(i), l.value, LimitDemand(cfg, l, cfg.steps[k], CellRequests(plan, k), plan, prices), HalfTest(l))
  }

  function UnpublishedTest(cfg: Config, i: nat, k: nat): Demand
    requires k < |cfg.steps|
  {
    DemandOn(Unpublished(i), UNPUBLISHED_CAP_RPS, cfg.steps[k], false)
  }

  function RouteCapTest(cfg: Config, k: nat, plan: Plan, prices: Prices): Demand
    requires k < |plan.stepRequests|
  {
    DemandOn(RouteCap, cfg.routeCap, EditionUSD(prices, plan, CellRequests(plan, k)), false)
  }

  /** Every test of step k: the limits, the unpublished limits, the route cap. */
  function Tests(cfg: Config, k: nat, plan: Plan, prices: Prices): seq<Demand>
    requires k < |cfg.steps| == |plan.stepRequests|
  {
    seq(|cfg.limits|, i requires 0 <= i < |cfg.limits| => LimitTest(cfg, i, k, plan, prices))
    + seq(cfg.unpublished, i requires 0 <= i < cfg.unpublished => UnpublishedTest(cfg, i, k))
    + [RouteCapTest(cfg, k, plan, prices)]
  }

  /** A step is admitted when it passes every test. */
  ghost predicate Admits(cfg: Config, k: nat, plan: Plan, prices: Prices)
    requires k < |cfg.steps| == |plan.stepRequests|
  {
    && (forall i :: 0 <= i < |cfg.limits| ==> LimitTest(cfg, i, k, plan, prices).pass)
    && (forall i :: 0 <= i < cfg.unpublished ==> UnpublishedTest(cfg, i, k).pass)
    && RouteCapTest(cfg, k, plan, prices).pass
  }

  /** A step's verdict: its tests in order, and the first that fails. */
  ghost predicate Judged(s: Step, cfg: Config, k: nat, plan: Plan, prices: Prices)
    requires k < |cfg.steps| == |plan.stepRequests|
  {
    && s.rps == cfg.steps[k] && s.demands == Tests(cfg, k, plan, prices)
    && (s.admitted <==> Admits(cfg, k, plan, prices))
    && (s.admitted <==> s.binding.None?)
    && (s.binding.Some? ==> exists i: nat :: FirstFailed(s.demands, i) && s.binding.value == s.demands[i])
  }

  ghost predicate FirstFailed(demands: seq<Demand>, i: nat) {
    i < |demands| && !demands[i].pass && forall j :: 0 <= j < i ==> demands[j].pass
  }

  // ----- every demand rises with the step, and with the price

  lemma MulMono(a: real, b: real, x: real, y: real)
    requires 0.0 <= a <= x && 0.0 <= b <= y
    ensures 0.0 <= a * b <= x * y
  {
    assert a * b <= x * b <= x * y;
  }

  lemma IntMulMono(n: int, a: int, b: int)
    requires n >= 0 && 0 <= a <= b
    ensures 0 <= n * a <= n * b
  {
  }

  lemma {:induction false} CellRequestsMono(cfg: Config, plan: Plan, j: nat, k: nat)
    requires PlanFits(cfg, plan) && j <= k < |cfg.steps|
    ensures 0 <= CellRequests(plan, j) <= CellRequests(plan, k)
    decreases k
  {
    if j < k {
      CellRequestsMono(cfg, plan, j, k - 1);
    } else if k > 0 {
      CellRequestsMono(cfg, plan, k - 1, k - 1);
    }
  }

  lemma TokensNonNegative(cfg: Config, l: Limit)
    requires ValidLimit(l) && cfg.input >= 1 && cfg.ceiling >= 1
    ensures TokensOf(cfg, l) >= 0.0
  {
    TimesMono(0, cfg.ceiling, l.burndown, l.burndown);
  }

  /** cheaper's prices are no higher. */
  predicate NoDearer(cheaper: Prices, prices: Prices) {
    cheaper.c <= prices.c && cheaper.cProbe <= prices.cProbe
  }

  lemma EditionMono(plan: Plan, cell: int, more: int, cheaper: Prices, prices: Prices)
    requires 0 <= cell <= more && plan.cells >= 0 && plan.probes >= 0 && NoDearer(cheaper, prices)
    ensures CellUSD(cheaper, cell) <= CellUSD(prices, more)
    ensures EditionUSD(cheaper, plan, cell) <= EditionUSD(prices, plan, more)
  {
    TimesMono(cell, more, cheaper.c, prices.c);
    IntMulMono(plan.cells, cell, more);
    TimesMono(plan.cells * cell, plan.cells * more, cheaper.c, prices.c);
    TimesMono(plan.probes, plan.probes, cheaper.cProbe, prices.cProbe);
  }

  lemma DemandMono(cfg: Config, l: Limit, r: real, s: real, cell: int, more: int, plan: Plan,
                   cheaper: Prices, prices: Prices)
    requires ValidLimit(l) && cfg.input >= 1 && cfg.ceiling >= 1 && cfg.timeoutS >= 0
    requires 0.0 < r <= s && 0 <= cell <= more && plan.cells >= 0 && plan.dayCells >= 0 && plan.probes >= 0
    requires NoDearer(cheaper, prices)
    ensures LimitDemand(cfg, l, r, cell, plan, cheaper) <= LimitDemand(cfg, l, s, more, plan, prices)
  {
    TokensNonNegative(cfg, l);
    IntMulMono(plan.dayCells, cell, more);
    match l.dimension
    case TokensPerMinute => MulMono(r * 60.0, TokensOf(cfg, l), s * 60.0, TokensOf(cfg, l));
    case InputPerMinute => TimesMono(cfg.input, cfg.input, r * 60.0, s * 60.0);
    case OutputPerMinute => TimesMono(cfg.ceiling, cfg.ceiling, r * 60.0, s * 60.0);
    case Concurrency => TimesMono(cfg.timeoutS, cfg.timeoutS, r, s);
    case TokensPerDay => TimesMono(plan.dayCells * cell, plan.dayCells * more, TokensOf(cfg, l), TokensOf(cfg, l));
    case SpendWindow =>
      MulMono(r, l.windowS, s, l.windowS);
      MulMono(r * l.windowS, cheaper.c, s * l.windowS, prices.c);
    case SpendMonth => EditionMono(plan, cell, more, cheaper, prices);
    case ReloadThreshold => EditionMono(plan, cell, more, cheaper, prices);
    case _ =>
  }

  /** looser's limits are cfg's, none of them lower. */
  ghost predicate NoTighter(looser: Config, cfg: Config) {
    && looser == cfg.(limits := looser.limits) && |looser.limits| == |cfg.limits|
    && forall i :: 0 <= i < |cfg.limits| ==>
         looser.limits[i] == cfg.limits[i].(value := looser.limits[i].value) && looser.limits[i].value >= cfg.limits[i].value
  }

  /** Admission is downward closed in the step, monotone in every limit and antitone
      in the price, all at once. */
  lemma AdmissionMono(cfg: Config, looser: Config, plan: Plan, prices: Prices, cheaper: Prices, j: nat, k: nat)
    requires ValidConfig(cfg) && PlanFits(cfg, plan) && NoTighter(looser, cfg) && NoDearer(cheaper, prices)
    requires j <= k < |cfg.steps| && Admits(cfg, k, plan, prices)
    ensures Admits(looser, j, plan, cheaper)
  {
    CellRequestsMono(cfg, plan, j, k);
    var cell, more := CellRequests(plan, j), CellRequests(plan, k);
    assert cfg.steps[j] <= cfg.steps[k];
    EditionMono(plan, cell, more, cheaper, prices);
    forall i | 0 <= i < cfg.unpublished
      ensures UnpublishedTest(looser, i, j).pass
    {
      assert UnpublishedTest(cfg, i, k).pass;
    }
    forall i | 0 <= i < |cfg.limits|
      ensures LimitTest(looser, i, j, plan, cheaper).pass
    {
      LimitMono(cfg, looser, plan, prices, cheaper, i, j, k);
    }
  }

  lemma LimitMono(cfg: Config, looser: Config, plan: Plan, prices: Prices, cheaper: Prices, i: nat, j: nat, k: nat)
    requires ValidConfig(cfg) && PlanFits(cfg, plan) && NoTighter(looser, cfg) && NoDearer(cheaper, prices)
    requires j <= k < |cfg.steps| && i < |cfg.limits| && LimitTest(cfg, i, k, plan, prices).pass
    ensures LimitTest(looser, i, j, plan, cheaper).pass
  {
    CellRequestsMono(cfg, plan, j, k);
    assert ValidLimit(cfg.limits[i]) && cfg.steps[j] <= cfg.steps[k] && cfg.steps[j] > 0.0;
    var l, cell := looser.limits[i], CellRequests(plan, j);
    DemandMono(cfg, cfg.limits[i], cfg.steps[j], cfg.steps[k], cell, CellRequests(plan, k), plan, cheaper, prices);
    SameDemand(cfg, looser, l, cfg.limits[i], cfg.steps[j], cell, plan, cheaper);
  }

  lemma SameDemand(cfg: Config, looser: Config, l: Limit, m: Limit, r: real, cell: int, plan: Plan, prices: Prices)
    requires looser == cfg.(limits := looser.limits) && l == m.(value := l.value)
    ensures LimitDemand(looser, l, r, cell, plan, prices) == LimitDemand(cfg, m, r, cell, plan, prices)
    ensures HalfTest(l) == HalfTest(m)
  {
    assert TokensOf(looser, l) == TokensOf(cfg, m);
  }

  // ----- the rule

  /** The prices at the route's and the probe's ceilings; None for a price that does not check. */
  function PricesOf(cfg: Config, p: Ledger.ListPrice): Option<Prices>
    requires cfg.ceiling <= cfg.probeCeiling
  {
    match (Ledger.CheckPrice(cfg.route, p.(tokens := Ledger.Tokens(cfg.input, cfg.ceiling))),
           Ledger.CheckPrice(cfg.route, p.(tokens := Ledger.Tokens(cfg.input, cfg.probeCeiling))))
    case (Some(c), Some(cProbe)) => Some(Prices(c, cProbe))
    case _ => None
  }

  /** A probe request costs no less than a cell's. */
  lemma ProbeNoCheaper(cfg: Config, p: Ledger.ListPrice)
    requires ValidConfig(cfg) && PricesOf(cfg, p).Some?
    ensures PricesOf(cfg, p).value.c <= PricesOf(cfg, p).value.cProbe
  {
    TimesMono(cfg.ceiling, cfg.probeCeiling, p.output.value, p.output.value);
  }

  /** Lower list prices give lower prices per request. */
  lemma PricesMono(cfg: Config, p: Ledger.ListPrice, q: Ledger.ListPrice)
    requires ValidConfig(cfg) && PricesOf(cfg, p).Some? && PricesOf(cfg, q).Some?
    requires p.input.value <= q.input.value && p.output.value <= q.output.value
    ensures NoDearer(PricesOf(cfg, p).value, PricesOf(cfg, q).value)
  {
    TimesMono(cfg.input, cfg.input, p.input.value, q.input.value);
    TimesMono(cfg.ceiling, cfg.ceiling, p.output.value, q.output.value);
    TimesMono(cfg.probeCeiling, cfg.probeCeiling, p.output.value, q.output.value);
  }

  /** The number of admitted steps: they are the ladder up to the top one. */
  ghost predicate AdmittedCount(cfg: Config, plan: Plan, prices: Prices, m: nat)
    requires |cfg.steps| == |plan.stepRequests|
  {
    && m <= |cfg.steps|
    && (forall k :: 0 <= k < m ==> Admits(cfg, k, plan, prices))
    && (forall k :: m <= k < |cfg.steps| ==> !Admits(cfg, k, plan, prices))
  }

  /** What a verdict says: every step judged, and the top admitted step's rate, cell and edition. */
  ghost predicate Correct(v: Verdict, cfg: Config, plan: Plan, prices: Prices)
    requires |cfg.steps| == |plan.stepRequests|
  {
    && v.perRequest == prices.c && v.probe == prices.cProbe
    && |v.steps| == |cfg.steps|
    && (forall k :: 0 <= k < |v.steps| ==> Judged(v.steps[k], cfg, k, plan, prices))
    && exists m: nat :: Top(v, cfg, plan, prices, m)
  }

  ghost predicate Top(v: Verdict, cfg: Config, plan: Plan, prices: Prices, m: nat)
    requires |cfg.steps| == |plan.stepRequests|
  {
    && AdmittedCount(cfg, plan, prices, m)
    && (m == 0 ==> v.topRps == 0.0 && v.cell == 0.0 && v.edition == 0.0)
    && (m > 0 ==> && v.topRps == cfg.steps[m - 1]
                  && v.cell == CellUSD(prices, CellRequests(plan, m - 1))
                  && v.edition == EditionUSD(prices, plan, CellRequests(plan, m - 1)))
  }

  lemma CountStep(cfg: Config, plan: Plan, prices: Prices, m: nat, k: nat)
    requires ValidConfig(cfg) && PlanFits(cfg, plan)
    requires m <= k < |cfg.steps| && Admits(cfg, k, plan, prices)
    requires forall j :: m <= j < k ==> !Admits(cfg, j, plan, prices)
    ensures m == k
  {
    if m < k {
      AdmissionMono(cfg, cfg, plan, prices, prices, m, k);
    }
  }

  lemma TestsPass(cfg: Config, k: nat, plan: Plan, prices: Prices)
    requires k < |cfg.steps| == |plan.stepRequests|
    ensures (forall i :: 0 <= i < |Tests(cfg, k, plan, prices)| ==> Tests(cfg, k, plan, prices)[i].pass)
            <==> Admits(cfg, k, plan, prices)
  {
    var t, n := Tests(cfg, k, plan, prices), |cfg.limits|;
    assert forall i :: 0 <= i < n ==> t[i] == LimitTest(cfg, i, k, plan, prices);
    assert forall i :: 0 <= i < cfg.unpublished ==> t[n + i] == UnpublishedTest(cfg, i, k);
    assert forall i :: n <= i < n + cfg.unpublished ==> t[i] == UnpublishedTest(cfg, i - n, k);
    assert t[n + cfg.unpublished] == RouteCapTest(cfg, k, plan, prices);
  }

  /** The first test that fails. */
  method FirstFailure(demands: seq<Demand>) returns (binding: Option<Demand>)
    ensures binding.None? <==> forall i :: 0 <= i < |demands| ==> demands[i].pass
    ensures binding.Some? ==> exists i: nat :: FirstFailed(demands, i) && binding.value == demands[i]
  {
    for i := 0 to |demands|
      invariant forall j :: 0 <= j < i ==> demands[j].pass
    {
      if !demands[i].pass {
        assert FirstFailed(demands, i);
        return Some(demands[i]);
      }
    }
    return None;
  }

  /** The ceiling rule. None refuses a configuration that does not validate, a plan
      that does not fit its ladder, or a price that does not check. */
  method CeilingRule(cfg: Config, p: Ledger.ListPrice, plan: Plan) returns (v: Option<Verdict>)
    ensures v.None? <==> !ValidConfig(cfg) || !PlanFits(cfg, plan) || PricesOf(cfg, p).None?
    ensures v.Some? ==> Correct(v.value, cfg, plan, PricesOf(cfg, p).value)
  {
    if !ValidConfig(cfg) || !PlanFits(cfg, plan) {
      return None;
    }
    var checked := PricesOf(cfg, p);
    if checked.None? {
      return None;
    }
    var prices := checked.value;
    var cell, steps := plan.warmup, [];
    var top, cellUSD, editionUSD := 0.0, 0.0, 0.0;
    ghost var m := 0;
    for k := 0 to |cfg.steps|
      invariant cell == if k == 0 then plan.warmup else CellRequests(plan, k - 1)
      invariant |steps| == k && forall j :: 0 <= j < k ==> Judged(steps[j], cfg, j, plan, prices)
      invariant m <= k
      invariant forall j :: 0 <= j < m ==> Admits(cfg, j, plan, prices)
      invariant forall j :: m <= j < k ==> !Admits(cfg, j, plan, prices)
      invariant m == 0 ==> top == 0.0 && cellUSD == 0.0 && editionUSD == 0.0
      invariant m > 0 ==> && top == cfg.steps[m - 1]
                          && cellUSD == CellUSD(prices, CellRequests(plan, m - 1))
                          && editionUSD == EditionUSD(prices, plan, CellRequests(plan, m - 1))
    {
      cell := cell + plan.stepRequests[k];
      var demands := Tests(cfg, k, plan, prices);
      var binding := FirstFailure(demands);
      TestsPass(cfg, k, plan, prices);
      if binding.None? {
        CountStep(cfg, plan, prices, m, k);
        top, cellUSD, editionUSD := cfg.steps[k], CellUSD(prices, cell), EditionUSD(prices, plan, cell);
        m := k + 1;
      }
      steps := steps + [Step(cfg.steps[k], binding.None?, binding, demands)];
    }
    var w := Verdict(prices.c, prices.cProbe, top, cellUSD, editionUSD, steps);
    assert Top(w, cfg, plan, prices, m);
    return Some(w);
  }

  // ----- the rule again at a cell's start

  /** The limits with every read value in place of the recorded one; None keeps it. */
  function Overwritten(limits: seq<Limit>, read: seq<Option<real>>): seq<Limit>
    requires |read| <= |limits|
  {
    seq(|limits|, i requires 0 <= i < |limits| =>
      if i < |read| && read[i].Some? then limits[i].(value := read[i].value) else limits[i])
  }

  datatype StartLimits = Unusable | Keeps | Stops(step: nat)

  /** Whether the limits read at a cell's start, at a price, still admit the steps
      the route runs; a stop names the lowest step lost. */
  method LimitsStop(cfg: Config, plan: Plan, prices: Prices, verdict: Verdict, read: seq<Option<real>>,
                    p: Ledger.ListPrice)
    returns (r: StartLimits)
    requires ValidConfig(cfg) && PlanFits(cfg, plan) && Correct(verdict, cfg, plan, prices)
    requires |read| <= |cfg.limits|
    ensures forall i :: 0 <= i < |cfg.limits| ==>
      Overwritten(cfg.limits, read)[i]
        == if i < |read| && read[i].Some? then cfg.limits[i].(value := read[i].value) else cfg.limits[i]
    ensures var now := cfg.(limits := Overwritten(cfg.limits, read));
      && (r.Unusable? <==> !ValidConfig(now) || PricesOf(now, p).None?)
      && (r.Keeps? ==> forall k :: 0 <= k < |cfg.steps| && Admits(cfg, k, plan, prices)
                         ==> Admits(now, k, plan, PricesOf(now, p).value))
      && (r.Stops? ==>
            && r.step < |cfg.steps| && Admits(cfg, r.step, plan, prices)
            && AdmittedCount(now, plan, PricesOf(now, p).value, r.step))
      && (NoTighter(now, cfg) && PricesOf(now, p).Some? && NoDearer(PricesOf(now, p).value, prices) ==> r.Keeps?)
  {
    var limits := cfg.limits;
    for i := 0 to |read|
      invariant |limits| == |cfg.limits|
      invariant forall j :: 0 <= j < |limits| ==>
        limits[j] == if j < i && read[j].Some? then cfg.limits[j].(value := read[j].value) else cfg.limits[j]
    {
      if read[i].Some? {
        limits := limits[i := limits[i].(value := read[i].value)];
      }
    }
    assert limits == Overwritten(cfg.limits, read);
    var now := cfg.(limits := limits);
    var v := CeilingRule(now, p, plan);
    if v.None? {
      if NoTighter(now, cfg) {
        LooserValid(cfg, now);
      }
      return Unusable;
    }
    ghost var at := PricesOf(now, p).value;
    for k := 0 to |verdict.steps|
      invariant forall j :: 0 <= j < k && Admits(cfg, j, plan, prices) ==> Admits(now, j, plan, at)
    {
      assert Judged(verdict.steps[k], cfg, k, plan, prices) && Judged(v.value.steps[k], now, k, plan, at);
      if verdict.steps[k].admitted && !v.value.steps[k].admitted {
        LowestLost(cfg, now, plan, prices, at, k);
        return Stops(k);
      }
    }
    return Keeps;
  }

  lemma LooserValid(cfg: Config, looser: Config)
    requires ValidConfig(cfg) && NoTighter(looser, cfg)
    ensures ValidConfig(looser)
  {
    forall i | 0 <= i < |looser.limits|
      ensures ValidLimit(looser.limits[i])
    {
      assert ValidLimit(cfg.limits[i]);
    }
  }

  /** The first admitted step lost leaves every lower step admitted and every higher one lost. */
  lemma LowestLost(cfg: Config, now: Config, plan: Plan, prices: Prices, at: Prices, k: nat)
    requires ValidConfig(cfg) && ValidConfig(now) && PlanFits(cfg, plan) && now.steps == cfg.steps
    requires k < |cfg.steps| && Admits(cfg, k, plan, prices) && !Admits(now, k, plan, at)
    requires forall j :: 0 <= j < k && Admits(cfg, j, plan, prices) ==> Admits(now, j, plan, at)
    ensures AdmittedCount(now, plan, at, k)
    ensures NoTighter(now, cfg) ==> !NoDearer(at, prices)
  {
    forall j | 0 <= j < k
      ensures Admits(now, j, plan, at)
    {
      AdmissionMono(cfg, cfg, plan, prices, prices, j, k);
    }
    forall j | k <= j < |cfg.steps|
      ensures !Admits(now, j, plan, at)
    {
      if Admits(now, j, plan, at) {
        AdmissionMono(now, now, plan, at, at, k, j);
      }
    }
    if NoTighter(now, cfg) && NoDearer(at, prices) {
      AdmissionMono(cfg, now, plan, prices, at, k, k);
    }
  }
}
