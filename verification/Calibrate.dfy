// Single-replica calibration (internal/calibrate/calibrate.go): a ramp of doubling
// then fine steps, and the rate two or three ramps decide. Rates are exact.
module Calibrate {
  import opened Prelude

  const START_RPS := 2.0
  const FINE_FRAC := 0.1
  const AGREEMENT_FRAC := 0.1
  const GOODPUT_MIN := 0.99
  const QUEUE_MAX := 1.0
  const COVERAGE_MIN := 0.9
  const LAMBDA_R_FRAC := 0.65
  const REPLICAS := 2
  const MAX_STEPS := 1000
  const SETTLE_S := 30.0
  const MEASURE_S := 120.0

  datatype Spec = Spec(rate: real, settle: real, measure: real, seed: int)

  /** What running a spec gives: nothing where the context had ended, an execution
      error, or a step's numbers. */
  datatype Answer =
    | Interrupted
    | Broken
    | Measured(goodput: real, queueMean: real, samples: nat, expected: nat, gatesPass: bool)

  /** Any runner: a ramp never repeats a spec, so what one gives is a function of it. */
  type Runner = Spec -> Answer

  datatype Step = Step(spec: Spec, pass: Option<bool>)

  datatype Reason = FirstFailed | CoarseCeiling | FineCeiling

  datatype Ramp = Ramp(steps: seq<Step>, lambdaMax: real, valid: bool, reason: Option<Reason>)

  datatype Options = Options(ceiling: real, settleS: real, measureS: real, seed: int) {
    function Settle(): real { if settleS > 0.0 then settleS else SETTLE_S }
    function Measure(): real { if measureS > 0.0 then measureS else MEASURE_S }

    /** The n-th step's spec at a rate. */
    function SpecAt(n: nat, rate: real): Spec { Spec(rate, Settle(), Measure(), seed + n) }

    predicate Within(rate: real) { ceiling > 0.0 ==> rate <= ceiling }
  }

  /** The pass criteria on a step whose queue gauge was observed well enough. */
  predicate Passes(a: Answer)
    requires a.Measured?
  {
    a.goodput >= GOODPUT_MIN && a.samples != 0 && a.queueMean <= QUEUE_MAX && a.gatesPass
  }

  predicate Covered(a: Answer)
    requires a.Measured?
  {
    a.expected > 0 ==> a.samples as real >= COVERAGE_MIN * a.expected as real
  }

  /** A step as its runner's answer has it judged; an error is no verdict. */
  function Judge(r: Runner, sp: Spec): Option<bool> {
    var a := r(sp);
    if a.Measured? && Covered(a) then Some(Passes(a)) else None
  }

  // ----- one ramp

  function Coarse(n: nat): real { if n == 0 then START_RPS else 2.0 * Coarse(n - 1) }

  function Fine(base: real, k: nat): real { base + Times(k, FINE_FRAC * base) }

  /** Every step in turn: its seed, its rate within the ceiling, and its verdict. */
  ghost predicate Ran(steps: seq<Step>, r: Runner, o: Options) {
    && |steps| <= MAX_STEPS
    && forall i :: 0 <= i < |steps| ==> RanAt(steps[i], i, r, o)
  }

  ghost predicate RanAt(s: Step, i: nat, r: Runner, o: Options) {
    s.spec == o.SpecAt(i, s.spec.rate) && o.Within(s.spec.rate) && s.spec.rate > 0.0 && s.pass == Judge(r, s.spec)
  }

  ghost predicate PassedAt(steps: seq<Step>, i: nat, rate: real)
    requires i < |steps|
  {
    steps[i].spec.rate == rate && steps[i].pass == Some(true)
  }

  ghost predicate CoarsePassed(steps: seq<Step>, o: Options, i: nat)
    requires i < |steps|
  {
    PassedAt(steps, i, Coarse(i)) && (o.ceiling > 0.0 ==> Coarse(i) < o.ceiling)
  }

  /** The fine step i, where the first fine step is c + 1. */
  ghost predicate FinePassed(steps: seq<Step>, c: nat, i: nat)
    requires 0 < c < i < |steps|
  {
    PassedAt(steps, i, Fine(Coarse(c - 1), i - c))
  }

  /** c doubling steps passed, each under the ceiling. */
  ghost predicate Doubled(steps: seq<Step>, o: Options, c: nat) {
    c <= |steps| && forall i :: 0 <= i < c ==> CoarsePassed(steps, o, i)
  }

  /** The rate of the c-th doubling step: the ceiling where doubling reaches it. */
  function CoarseRate(o: Options, c: nat): real {
    if o.ceiling > 0.0 && Coarse(c) >= o.ceiling then o.ceiling else Coarse(c)
  }

  /** c doubling steps passed and the next failed; then k fine steps from the last rate that passed. */
  ghost predicate Refined(steps: seq<Step>, o: Options, c: nat, k: nat) {
    && c > 0 && |steps| >= c + 1 + k && Doubled(steps, o, c)
    && steps[c].spec.rate == CoarseRate(o, c) && steps[c].pass == Some(false)
    && forall i :: c < i <= c + k ==> FinePassed(steps, c, i)
  }

  /** How a ramp with no error ends. */
  ghost predicate Ends(ramp: Ramp, o: Options) {
    var steps := ramp.steps;
    match ramp.reason
    case None =>
      ramp.valid && exists c: nat, k: nat :: Measures(ramp, o, c, k)
    case Some(FirstFailed) =>
      !ramp.valid && |steps| == 1 && steps[0].spec.rate == CoarseRate(o, 0) && steps[0].pass == Some(false)
    case Some(CoarseCeiling) =>
      !ramp.valid && exists c: nat :: |steps| == c + 1 && Doubled(steps, o, c) && o.ceiling > 0.0 && PassedAt(steps, c, o.ceiling)
    case Some(FineCeiling) =>
      !ramp.valid && exists c: nat, k: nat ::
        |steps| == c + 1 + k && Refined(steps, o, c, k) && 0.0 < o.ceiling < Fine(Coarse(c - 1), k + 1)
  }

  /** A valid ramp: k fine steps passed, the next failed, and lambda_max is the last rate that passed. */
  ghost predicate Measures(ramp: Ramp, o: Options, c: nat, k: nat) {
    && |ramp.steps| == c + k + 2 && Refined(ramp.steps, o, c, k)
    && ramp.lambdaMax == Fine(Coarse(c - 1), k)
    && ramp.steps[c + k + 1].spec.rate == Fine(Coarse(c - 1), k + 1) && ramp.steps[c + k + 1].pass == Some(false)
  }

  /** Run one step; None is an error, with the step kept unless it never ran. */
  method RunStep(r: Runner, o: Options, steps: seq<Step>, rate: real) returns (after: seq<Step>, pass: Option<bool>)
    requires Ran(steps, r, o) && o.Within(rate) && rate > 0.0
    ensures Ran(after, r, o)
    ensures pass.Some? ==> after == steps + [Step(o.SpecAt(|steps|, rate), pass)]
    ensures pass.None? ==> after == steps || after == steps + [Step(o.SpecAt(|steps|, rate), None)]
  {
    var sp := o.SpecAt(|steps|, rate);
    if r(sp).Interrupted? || |steps| >= MAX_STEPS {
      return steps, None;
    }
    pass := Judge(r, sp);
    after := steps + [Step(sp, pass)];
  }

  method RunRamp(r: Runner, o: Options) returns (ramp: Ramp, err: bool)
    ensures Ran(ramp.steps, r, o)
    ensures !err ==> Ends(ramp, o)
    ensures err ==> !ramp.valid
  {
    ramp, err := Ramp([], 0.0, false, None), true;
    var last, rate, n: nat := 0.0, START_RPS, 0;
    while true
      invariant |ramp.steps| == n <= MAX_STEPS && ramp == Ramp(ramp.steps, 0.0, false, None)
      invariant Ran(ramp.steps, r, o) && Doubled(ramp.steps, o, n)
      invariant rate == Coarse(n) > 0.0 && last == if n == 0 then 0.0 else Coarse(n - 1)
      decreases MAX_STEPS - n
    {
      var capped := false;
      if o.ceiling > 0.0 && rate >= o.ceiling {
        rate, capped := o.ceiling, true;
      }
      ghost var was := ramp.steps;
      var steps, pass := RunStep(r, o, ramp.steps, rate);
      ramp := ramp.(steps := steps);
      if pass.None? {
        return;
      }
      if !pass.value {
        DoubledKept(was, ramp.steps, o, n);
        if last == 0.0 {
          return ramp.(reason := Some(FirstFailed)), false;
        }
        break;
      }
      last := rate;
      DoubledKept(was, ramp.steps, o, n);
      if capped {
        assert PassedAt(ramp.steps, n, o.ceiling);
        return ramp.(reason := Some(CoarseCeiling)), false;
      }
      assert CoarsePassed(ramp.steps, o, n);
      n, rate := n + 1, rate * 2.0;
    }
    var base, k: nat := last, 0;
    while true
      invariant ramp == Ramp(ramp.steps, 0.0, false, None) && |ramp.steps| == n + 1 + k <= MAX_STEPS
      invariant Ran(ramp.steps, r, o) && Refined(ramp.steps, o, n, k)
      invariant base == Coarse(n - 1) > 0.0 && last == Fine(base, k)
      decreases MAX_STEPS - k
    {
      rate := Fine(base, k + 1);
      if o.ceiling > 0.0 && rate > o.ceiling {
        return ramp.(reason := Some(FineCeiling)), false;
      }
      FineRises(base, k);
      ghost var was := ramp.steps;
      var steps, pass := RunStep(r, o, ramp.steps, rate);
      ramp := ramp.(steps := steps);
      if pass.None? {
        return;
      }
      RefinedKept(was, steps, o, n, k);
      if !pass.value {
        break;
      }
      assert FinePassed(ramp.steps, n, n + k + 1);
      last, k := rate, k + 1;
    }
    ramp, err := ramp.(lambdaMax := last, valid := true), false;
    assert Measures(ramp, o, n, k);
  }

  lemma DoubledKept(steps: seq<Step>, more: seq<Step>, o: Options, c: nat)
    requires Doubled(steps, o, c) && steps <= more
    ensures Doubled(more, o, c)
  {
    forall i | 0 <= i < c
      ensures CoarsePassed(more, o, i)
    {
      assert CoarsePassed(steps, o, i);
    }
  }

  lemma RefinedKept(steps: seq<Step>, more: seq<Step>, o: Options, c: nat, k: nat)
    requires Refined(steps, o, c, k) && steps <= more
    ensures Refined(more, o, c, k)
  {
    DoubledKept(steps, more, o, c);
    forall i | c < i <= c + k
      ensures FinePassed(more, c, i)
    {
      assert FinePassed(steps, c, i);
    }
  }

  lemma {:induction false} FineRises(base: real, k: nat)
    requires base > 0.0
    ensures Fine(base, k + 1) == Fine(base, k) + FINE_FRAC * base && Fine(base, k) >= base
  {
    if k > 0 {
      FineRises(base, k - 1);
    }
  }

  lemma {:induction false} CoarseRises(m: nat, n: nat)
    requires m <= n
    ensures START_RPS <= Coarse(m) <= Coarse(n)
  {
    if m < n {
      CoarseRises(m, n - 1);
    } else if n > 0 {
      CoarseRises(n - 1, n - 1);
    }
  }

  lemma {:induction false} FineMono(base: real, j: nat, k: nat)
    requires base > 0.0 && j <= k
    ensures base <= Fine(base, j) <= Fine(base, k)
  {
    FineRises(base, j);
    if j < k {
      FineRises(base, k - 1);
      FineMono(base, j, k - 1);
    }
  }

  /** A valid ramp's lambda_max is the highest rate that passed; its last step failed
      exactly one fine increment above, which is at most a tenth of it; and but for
      that step only the last doubling failed. */
  lemma LambdaMaxIsHighest(ramp: Ramp, o: Options, c: nat, k: nat)
    requires Measures(ramp, o, c, k)
    ensures var steps, last := ramp.steps, |ramp.steps| - 1;
      && PassedAt(steps, if k > 0 then c + k else c - 1, ramp.lambdaMax)
      && (forall i :: 0 <= i < |steps| && steps[i].pass == Some(true) ==> steps[i].spec.rate <= ramp.lambdaMax)
      && (forall i :: 0 <= i < |steps| && steps[i].pass != Some(true) <==> i == c || i == last)
      && steps[last].spec.rate == ramp.lambdaMax + FINE_FRAC * Coarse(c - 1)
      && ramp.lambdaMax < steps[last].spec.rate <= ramp.lambdaMax + FINE_FRAC * ramp.lambdaMax
  {
    var base, steps := Coarse(c - 1), ramp.steps;
    CoarseRises(c - 1, c - 1);
    FineRises(base, k);
    forall i | 0 <= i < |steps| && i != c && i != |steps| - 1
      ensures steps[i].pass == Some(true) && steps[i].spec.rate <= ramp.lambdaMax
    {
      if i < c {
        assert CoarsePassed(steps, o, i);
        CoarseRises(i, c - 1);
      } else {
        assert FinePassed(steps, c, i);
        FineMono(base, i - c, k);
      }
    }
    assert k > 0 ==> FinePassed(steps, c, c + k);
    assert CoarsePassed(steps, o, c - 1);
  }

  /** The criteria a step passes: 99 in 100 good, a queue of at most one observed often enough,
      and every gate. */
  ghost predicate Meets(a: Answer) { Observed(a) && a.goodput >= 0.99 && a.samples > 0 && a.queueMean <= 1.0 && a.gatesPass }

  /** Measured, with nine in ten of the expected samples. */
  ghost predicate Observed(a: Answer) { a.Measured? && (a.expected > 0 ==> 10.0 * a.samples as real >= 9.0 * a.expected as real) }

  /** A step passes exactly when it meets the criteria, fails exactly when it was observed and
      does not, and is otherwise an error. */
  lemma JudgedExactly(r: Runner, sp: Spec)
    ensures Judge(r, sp) == Some(true) <==> Meets(r(sp))
    ensures Judge(r, sp) == Some(false) <==> Observed(r(sp)) && !Meets(r(sp))
  {
  }

  /** A valid ramp's lambda_max met the criteria, over the settle and measure times asked for or
      pinned, and the step after its last rate was measured and did not. */
  lemma LambdaMaxMeets(ramp: Ramp, r: Runner, o: Options, c: nat, k: nat)
    requires Ran(ramp.steps, r, o) && Measures(ramp, o, c, k)
    ensures exists i :: 0 <= i < |ramp.steps| && ramp.steps[i].spec.rate == ramp.lambdaMax && Meets(r(ramp.steps[i].spec))
    ensures var last := r(ramp.steps[|ramp.steps| - 1].spec); Observed(last) && !Meets(last)
    ensures forall i :: 0 <= i < |ramp.steps| ==>
      && ramp.steps[i].spec.settle == (if o.settleS > 0.0 then o.settleS else 30.0)
      && ramp.steps[i].spec.measure == (if o.measureS > 0.0 then o.measureS else 120.0)
      && ramp.steps[i].spec.seed == o.seed + i
  {
    var steps, i, last := ramp.steps, if k > 0 then c + k else c - 1, |ramp.steps| - 1;
    LambdaMaxIsHighest(ramp, o, c, k);
    assert RanAt(steps[i], i, r, o) && RanAt(steps[last], last, r, o);
    JudgedExactly(r, steps[i].spec);
    JudgedExactly(r, steps[last].spec);
    forall j | 0 <= j < |steps|
      ensures steps[j].spec == o.SpecAt(j, steps[j].spec.rate)
    {
      assert RanAt(steps[j], j, r, o);
    }
  }

  /** A valid ramp's rates: two requests a second, doubled to the last that passed, then rising
      from it by tenths of it. */
  lemma RatesExactly(ramp: Ramp, o: Options, c: nat, k: nat, i: nat)
    requires Measures(ramp, o, c, k) && i < |ramp.steps|
    ensures var steps := ramp.steps;
      && (i == 0 ==> steps[i].spec.rate == 2.0)
      && (0 < i < c ==> steps[i].spec.rate == 2.0 * steps[i - 1].spec.rate)
      && (i == c ==> steps[i].spec.rate == if 0.0 < o.ceiling <= 2.0 * steps[i - 1].spec.rate then o.ceiling
                                           else 2.0 * steps[i - 1].spec.rate)
      && (c < i ==> 10.0 * steps[i].spec.rate == (10 + i - c) as real * steps[c - 1].spec.rate)
      && 10.0 * ramp.lambdaMax == (10 + k) as real * steps[c - 1].spec.rate
  {
    var steps := ramp.steps;
    assert CoarsePassed(steps, o, c - 1);
    if i < c {
      assert CoarsePassed(steps, o, i);
      assert i > 0 ==> CoarsePassed(steps, o, i - 1);
    } else if c < i {
      FineRate(ramp, o, c, k, i);
      FineIs(Coarse(c - 1), i - c);
    }
    FineIs(Coarse(c - 1), k);
  }

  lemma FineRate(ramp: Ramp, o: Options, c: nat, k: nat, i: nat)
    requires Measures(ramp, o, c, k) && c < i < |ramp.steps|
    ensures ramp.steps[i].spec.rate == Fine(Coarse(c - 1), i - c)
  {
    assert i <= c + k ==> FinePassed(ramp.steps, c, i);
  }

  lemma FineIs(base: real, k: nat)
    ensures 10.0 * Fine(base, k) == (10 + k) as real * base
  {
    TimesIs(k, FINE_FRAC * base);
    assert k as real * (FINE_FRAC * base) == k as real * base / 10.0;
  }

  // ----- the procedure

  datatype Decision = Agreed | MedianOfThree

  datatype Outcome = Outcome(ramps: seq<Ramp>, lambdaMax: real, lambdaR: real, load: real, decision: Option<Decision>,
                             valid: bool)

  function Max(a: real, b: real): real { if a < b then b else a }
  function Min(a: real, b: real): real { if a < b then a else b }
  function Abs(a: real): real { if a < 0.0 then -a else a }

  predicate Disagree(a: real, b: real) { Abs(a - b) > AGREEMENT_FRAC * Max(a, b) }

  /** The middle of three. */
  function Median(a: real, b: real, c: real): real {
    if c < Min(a, b) then Min(a, b) else if c < Max(a, b) then c else Max(a, b)
  }

  function OptionsAt(o: Options, i: nat): Options { o.(seed := o.seed + i * MAX_STEPS) }

  /** Each ramp ran at its own seeds, and every ramp but the last measured a lambda_max. */
  ghost predicate RampsRan(ramps: seq<Ramp>, r: Runner, o: Options) {
    && (forall i :: 0 <= i < |ramps| ==> Ran(ramps[i].steps, r, OptionsAt(o, i)))
    && (forall i :: 0 <= i < |ramps| && ramps[i].valid ==> Ends(ramps[i], OptionsAt(o, i)))
    && (forall i :: 0 <= i < |ramps| - 1 ==> ramps[i].valid)
  }

  lemma RampsMore(ramps: seq<Ramp>, ramp: Ramp, r: Runner, o: Options)
    requires RampsRan(ramps, r, o) && forall i :: 0 <= i < |ramps| ==> ramps[i].valid
    requires Ran(ramp.steps, r, OptionsAt(o, |ramps|)) && (ramp.valid ==> Ends(ramp, OptionsAt(o, |ramps|)))
    ensures RampsRan(ramps + [ramp], r, o)
  {
  }

  /** The lambda_max decided by measured ramps. */
  ghost predicate Decides(ramps: seq<Ramp>, lambdaMax: real, decision: Decision) {
    match decision
    case Agreed => |ramps| == 2 && !Disagree(ramps[0].lambdaMax, ramps[1].lambdaMax)
                   && lambdaMax == Min(ramps[0].lambdaMax, ramps[1].lambdaMax)
    case MedianOfThree => |ramps| == 3 && Disagree(ramps[0].lambdaMax, ramps[1].lambdaMax)
                          && lambdaMax == Median(ramps[0].lambdaMax, ramps[1].lambdaMax, ramps[2].lambdaMax)
  }

  /** Two ramps, and a third where they disagree. */
  method Procedure(r: Runner, o: Options) returns (res: Outcome, err: bool)
    ensures |res.ramps| <= 3 && RampsRan(res.ramps, r, o)
    ensures |res.ramps| == 3 <==> |res.ramps| >= 2 && res.ramps[0].valid && res.ramps[1].valid
                                  && Disagree(res.ramps[0].lambdaMax, res.ramps[1].lambdaMax)
    ensures !err ==> forall i :: 0 <= i < |res.ramps| ==> Ends(res.ramps[i], OptionsAt(o, i))
    ensures res.valid ==> !err && (forall i :: 0 <= i < |res.ramps| ==> res.ramps[i].valid) && res.decision.Some?
                          && Decides(res.ramps, res.lambdaMax, res.decision.value)
    ensures res.valid ==> res.lambdaR == 0.65 * res.lambdaMax && res.load == res.lambdaR + res.lambdaR
    ensures !res.valid ==> res.ramps != [] && !res.ramps[|res.ramps| - 1].valid && res.decision.None?
  {
    res := Outcome([], 0.0, 0.0, 0.0, None, false);
    for i := 0 to 2
      invariant |res.ramps| == i && res == Outcome(res.ramps, 0.0, 0.0, 0.0, None, false)
      invariant RampsRan(res.ramps, r, o) && forall j :: 0 <= j < i ==> res.ramps[j].valid
    {
      var ramp;
      ramp, err := RunRamp(r, OptionsAt(o, i));
      RampsMore(res.ramps, ramp, r, o);
      res := res.(ramps := res.ramps + [ramp]);
      if err || !ramp.valid {
        return;
      }
    }
    var a, b := res.ramps[0].lambdaMax, res.ramps[1].lambdaMax;
    if Disagree(a, b) {
      var ramp;
      ramp, err := RunRamp(r, OptionsAt(o, 2));
      RampsMore(res.ramps, ramp, r, o);
      res := res.(ramps := res.ramps + [ramp]);
      if err || !ramp.valid {
        return;
      }
      var vals := SortThree(a, b, ramp.lambdaMax);
      res := res.(lambdaMax := vals[1], decision := Some(MedianOfThree));
    } else {
      res := res.(lambdaMax := Min(a, b), decision := Some(Agreed));
    }
    var lambdaR := LAMBDA_R_FRAC * res.lambdaMax;
    res, err := res.(lambdaR := lambdaR, load := REPLICAS as real * lambdaR, valid := true), false;
  }

  /** Three values in ascending order. */
  method SortThree(a: real, b: real, c: real) returns (vals: seq<real>)
    ensures |vals| == 3 && vals[0] <= vals[1] <= vals[2] && vals[1] == Median(a, b, c)
    ensures vals in [[a, b, c], [a, c, b], [b, a, c], [b, c, a], [c, a, b], [c, b, a]]
  {
    var lo, hi := Min(a, b), Max(a, b);
    vals := if c < lo then [c, lo, hi] else if c < hi then [lo, c, hi] else [lo, hi, c];
  }

  /** No arrival schedule is ever reused: every step of every ramp has its own seed. */
  lemma SeedsDistinct(ramps: seq<Ramp>, r: Runner, o: Options, i: nat, m: nat, j: nat, n: nat)
    requires RampsRan(ramps, r, o) && i < |ramps| && j < |ramps| && m < |ramps[i].steps| && n < |ramps[j].steps|
    requires ramps[i].steps[m].spec.seed == ramps[j].steps[n].spec.seed
    ensures i == j && m == n
  {
    assert RanAt(ramps[i].steps[m], m, r, OptionsAt(o, i));
    assert RanAt(ramps[j].steps[n], n, r, OptionsAt(o, j));
  }

  /** What is decided is a rate some ramp passed, above no step that ramp failed last;
      an agreed one is within a tenth of the higher ramp's, and a median lies between the others. */
  lemma DecisionIsSound(ramps: seq<Ramp>, r: Runner, o: Options, lambdaMax: real, d: Decision)
    requires RampsRan(ramps, r, o) && Decides(ramps, lambdaMax, d) && forall i :: 0 <= i < |ramps| ==> ramps[i].valid
    ensures lambdaMax > 0.0 && exists i :: 0 <= i < |ramps| && ramps[i].lambdaMax == lambdaMax
    ensures d.Agreed? ==> forall i :: 0 <= i < |ramps| ==>
      lambdaMax <= ramps[i].lambdaMax && lambdaMax >= (1.0 - AGREEMENT_FRAC) * ramps[i].lambdaMax
    ensures d.MedianOfThree? ==> 10.0 * ramps[0].lambdaMax < 9.0 * ramps[1].lambdaMax || 10.0 * ramps[1].lambdaMax < 9.0 * ramps[0].lambdaMax
    ensures d.MedianOfThree? ==> exists i, j :: 0 <= i < |ramps| && 0 <= j < |ramps| && i != j
                                   && ramps[i].lambdaMax <= lambdaMax <= ramps[j].lambdaMax
  {
    forall i | 0 <= i < |ramps|
      ensures ramps[i].lambdaMax > 0.0
    {
      var c: nat, k: nat :| Measures(ramps[i], OptionsAt(o, i), c, k);
      CoarseRises(c - 1, c - 1);
      FineRises(Coarse(c - 1), k);
    }
    var a, b := ramps[0].lambdaMax, ramps[1].lambdaMax;
    if d.MedianOfThree? {
      var z := ramps[2].lambdaMax;
      assert lambdaMax == a || lambdaMax == b || lambdaMax == z;
      assert a <= lambdaMax <= b || b <= lambdaMax <= a || a <= lambdaMax <= z || z <= lambdaMax <= a
          || b <= lambdaMax <= z || z <= lambdaMax <= b;
    } else {
      assert lambdaMax == a || lambdaMax == b;
    }
  }
}
