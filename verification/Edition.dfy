// The edition test and the ledger's route cap agree: what the ceiling rule admits
// (cmd/percentes-release/route.go, internal/admission/ceiling.go), the route cap
// never refuses (internal/admission/ledger.go).
module Edition {
  import opened Prelude
  import opened Ledger
  import opened LedgerState
  import opened LedgerCaps
  import opened LedgerRuns
  import opened LedgerDecision
  import opened LedgerMeaning
  import C = Ceiling
  import L = Ladder

  const RELEASE_CELLS := 12
  const RELEASE_RERUNS := 2
  const RELEASE_DAY_CELLS := 6
  const RELEASE_PROBES := 100

  // ----- the plan at the schedule's seeded counts

  /** Every count of a cell attempt's ladder is within the plan's. */
  ghost predicate PlanCovers(plan: C.Plan, l: L.Ladder) {
    && |l.steps| == |plan.stepRequests| > 0
    && l.steps[0].first <= plan.warmup
    && forall k :: 0 <= k < |l.steps| ==> l.steps[k].end - l.steps[k].first <= plan.stepRequests[k]
  }

  /** Each count is an attempt's, or zero: the plan covers no more than it must. */
  ghost predicate PlanAttained(plan: C.Plan, ladders: seq<L.Ladder>, steps: nat) {
    && |plan.stepRequests| == steps && (forall l :: l in ladders ==> |l.steps| == steps) && steps > 0
    && (plan.warmup == 0 || exists l :: l in ladders && l.steps[0].first == plan.warmup)
    && forall k :: 0 <= k < steps ==>
         plan.stepRequests[k] == 0 || exists l :: l in ladders && l.steps[k].end - l.steps[k].first == plan.stepRequests[k]
  }

  /** The plan at the exact seeded counts: each the largest over every cell attempt's ladder. */
  method ExactPlan(cfg: L.Config, attempts: seq<L.Draws>) returns (plan: C.Plan, ghost ladders: seq<L.Ladder>)
    requires L.ValidConfig(cfg) && forall a :: 0 <= a < |attempts| ==> L.Unbounded(attempts[a], cfg)
    ensures |ladders| == |attempts| && forall a :: 0 <= a < |attempts| ==> ladders[a] == L.TheLadder(cfg, attempts[a])
    ensures plan.cells == 14 && plan.dayCells == 6 && plan.probes == 100
    ensures plan.warmup >= 0 && forall k :: 0 <= k < |plan.stepRequests| ==> plan.stepRequests[k] >= 0
    ensures forall a :: 0 <= a < |attempts| ==> PlanCovers(plan, ladders[a])
    ensures PlanAttained(plan, ladders, |cfg.steps|)
  {
    var n := |cfg.steps|;
    var warmup: int, counts := 0, seq(n, _ => 0);
    ladders := [];
    for a := 0 to |attempts|
      invariant |ladders| == a && |counts| == n
      invariant forall b :: 0 <= b < a ==> ladders[b] == L.TheLadder(cfg, attempts[b])
      invariant forall b :: 0 <= b < a ==> |ladders[b].steps| == n
      invariant forall b :: 0 <= b < a ==> ladders[b].steps[0].first <= warmup
      invariant warmup == 0 || (warmup > 0 && exists b :: 0 <= b < a && ladders[b].steps[0].first == warmup)
      invariant forall k :: 0 <= k < n ==> Largest(counts[k], ladders, k)
    {
      var l := L.BuildLadder(cfg, attempts[a]);
      L.LadderWellFormed(cfg, attempts[a]);
      ghost var before := ladders;
      ladders := ladders + [l];
      assert ladders[a] == l;
      warmup := if l.steps[0].first > warmup then l.steps[0].first else warmup;
      counts := RaiseCounts(counts, before, l, cfg);
    }
    plan := C.Plan(warmup, counts, RELEASE_CELLS + RELEASE_RERUNS, RELEASE_DAY_CELLS, RELEASE_PROBES);
    forall a | 0 <= a < |attempts|
      ensures PlanCovers(plan, ladders[a])
    {
      forall k | 0 <= k < n
        ensures ladders[a].steps[k].end - ladders[a].steps[k].first <= counts[k]
      {
        assert Largest(counts[k], ladders, k);
      }
    }
    forall k | 0 <= k < n
      ensures counts[k] >= 0
      ensures counts[k] == 0 || exists l :: l in ladders && l.steps[k].end - l.steps[k].first == counts[k]
    {
      assert Largest(counts[k], ladders, k);
    }
  }

  /** Raise each step's count to a ladder's. */
  method RaiseCounts(counts: seq<int>, ghost before: seq<L.Ladder>, l: L.Ladder, ghost cfg: L.Config)
    returns (raised: seq<int>)
    requires L.WellFormed(l, cfg) && |l.steps| == |counts|
    requires forall k :: 0 <= k < |counts| ==> Largest(counts[k], before, k)
    ensures |raised| == |counts| && forall k :: 0 <= k < |counts| ==> Largest(raised[k], before + [l], k)
  {
    raised := counts;
    for k := 0 to |counts|
      invariant |raised| == |counts|
      invariant forall j :: 0 <= j < k ==> Largest(raised[j], before + [l], j)
      invariant forall j :: k <= j < |counts| ==> raised[j] == counts[j]
    {
      assert L.StepWell(l, cfg, k);
      var sent := l.steps[k].end - l.steps[k].first;
      LargestStep(counts[k], before, l, k);
      raised := raised[k := if sent > counts[k] then sent else counts[k]];
    }
  }

  ghost predicate Largest(n: int, ladders: seq<L.Ladder>, k: nat) {
    && n >= 0
    && (forall a :: 0 <= a < |ladders| ==> k < |ladders[a].steps| && ladders[a].steps[k].end - ladders[a].steps[k].first <= n)
    && (n == 0 || exists a :: 0 <= a < |ladders| && ladders[a].steps[k].end - ladders[a].steps[k].first == n)
  }

  lemma LargestStep(n: int, before: seq<L.Ladder>, l: L.Ladder, k: nat)
    requires Largest(n, before, k) && k < |l.steps| && l.steps[k].first <= l.steps[k].end
    ensures var sent := l.steps[k].end - l.steps[k].first;
      Largest(if sent > n then sent else n, before + [l], k)
  {
    var sent, after := l.steps[k].end - l.steps[k].first, before + [l];
    assert after[|before|] == l;
    if sent <= n && n != 0 {
      var a :| 0 <= a < |before| && before[a].steps[k].end - before[a].steps[k].first == n;
      assert after[a] == before[a];
    }
  }

  // ----- a cell's schedule is within the plan

  lemma {:induction false} EndWithinCell(plan: C.Plan, l: L.Ladder, cfg: L.Config, k: nat)
    requires PlanCovers(plan, l) && L.WellFormed(l, cfg) && k < |l.steps|
    ensures l.steps[k].end <= C.CellRequests(plan, k)
  {
    assert L.StepWell(l, cfg, k);
    if k > 0 {
      EndWithinCell(plan, l, cfg, k - 1);
    }
  }

  /** A cell's schedule, cut at the top admitted step, is within the plan's cell. */
  lemma CutWithinCell(plan: C.Plan, cfg: L.Config, draws: L.Draws, top: nat)
    requires L.ValidConfig(cfg) && L.Unbounded(draws, cfg) && 1 <= top <= |cfg.steps|
    requires PlanCovers(plan, L.TheLadder(cfg, draws))
    ensures top <= |plan.stepRequests|
    ensures |L.CutLadder(cfg, draws, top).offsets| <= C.CellRequests(plan, top - 1)
  {
    L.LadderWellFormed(cfg, draws);
    L.CutIsPrefix(cfg, draws, top);
    EndWithinCell(plan, L.TheLadder(cfg, draws), cfg, top - 1);
  }

  // ----- what a route's admissions are charged at most

  ghost predicate NoOverrunOn(lines: seq<Entry>, route: string) {
    forall k :: 0 <= k < |lines| ==> lines[k].body.Settle? && lines[k].body.route == route ==> !lines[k].body.overrun
  }

  /** A settled admission of the route sent at most its reservation. */
  lemma {:induction false} SettledWithin(lines: seq<Entry>, route: string, n: int)
    requires Replay(lines).Some? && NoOverrunOn(lines, route)
    requires 1 <= n <= |lines| && lines[n - 1].body.Admit? && lines[n - 1].body.route == route
    requires SettledWith(lines, n).Some?
    ensures 0 <= SettledWith(lines, n).value.Total() <= lines[n - 1].body.reserve
    decreases |lines|
  {
    var prior, e := lines[..|lines| - 1], lines[|lines| - 1];
    LastLine(lines);
    if e.body.Settle? && e.body.admit == n {
      SettlesOpen(Replay(prior).value, e);
      OpenMeaning(prior, n);
      SettleCounts(Replay(prior).value, e);
    } else {
      NoEarlySettle(prior, |lines|);
      assert n <= |prior| && prior[n - 1] == lines[n - 1];
      SettledWithin(prior, route, n);
    }
  }

  lemma SettleCounts(st: State, e: Entry)
    requires e.body.Settle? && Apply(st, e).Some?
    ensures e.body.admit in st.open && e.body.sent.Some? && e.body.sent.value.Total() >= 0
    ensures st.open[e.body.admit].route == e.body.route
    ensures !e.body.overrun ==> e.body.sent.value.Total() <= st.open[e.body.admit].reserve
  {
  }

  lemma AdmitPositive(lines: seq<Entry>, k: nat)
    requires Replay(lines).Some? && k < |lines| && lines[k].body.Admit?
    ensures lines[k].body.reserve >= 1
  {
    var upTo, e := lines[..k + 1], lines[k];
    ReplayPrefix(lines, k + 1);
    LastLine(upTo);
    assert upTo[k] == e;
    AdmitReserves(Replay(upTo[..k]).value, e);
  }

  lemma AdmitReserves(st: State, e: Entry)
    requires e.body.Admit? && Apply(st, e).Some?
    ensures e.body.reserve >= 1
  {
  }

  lemma ChargeWithin(lines: seq<Entry>, route: string, k: nat)
    requires Replay(lines).Some? && NoOverrunOn(lines, route)
    requires k < |lines| && lines[k].body.Admit? && lines[k].body.route == route
    ensures 0 <= ChargeOf(lines, k) <= lines[k].body.reserve
  {
    AdmitPositive(lines, k);
    var c := SettledWith(lines, k + 1);
    if c.Some? {
      SettledWithin(lines, route, k + 1);
      assert ChargeOf(lines, k) == c.value.Total();
    } else {
      assert ChargeOf(lines, k) == lines[k].body.reserve;
    }
  }

  ghost predicate CellAdmit(e: Entry, route: string) {
    e.body.Admit? && e.body.route == route && e.body.purpose.Cell?
  }

  ghost predicate OtherAdmit(e: Entry, route: string) {
    e.body.Admit? && e.body.route == route && !e.body.purpose.Cell?
  }

  /** The route's cell admissions among the first m lines. */
  ghost function CellCount(lines: seq<Entry>, m: nat, route: string): nat
    requires m <= |lines|
  {
    if m == 0 then 0 else CellCount(lines, m - 1, route) + (if CellAdmit(lines[m - 1], route) then 1 else 0)
  }

  /** The requests its other admissions reserved. */
  ghost function OtherReserve(lines: seq<Entry>, m: nat, route: string): int
    requires m <= |lines|
  {
    if m == 0 then 0 else
    OtherReserve(lines, m - 1, route) + (if OtherAdmit(lines[m - 1], route) then lines[m - 1].body.reserve else 0)
  }

  /** Of them, those at one pair of token bounds. */
  ghost function OtherAt(lines: seq<Entry>, m: nat, route: string, tok: Tokens): int
    requires m <= |lines|
  {
    if m == 0 then 0 else
    OtherAt(lines, m - 1, route, tok)
    + (if OtherAdmit(lines[m - 1], route) && lines[m - 1].body.tokens == tok then lines[m - 1].body.reserve else 0)
  }

  lemma {:induction false} OtherSplit(lines: seq<Entry>, m: nat, route: string, a: Tokens, b: Tokens)
    requires Replay(lines).Some? && m <= |lines| && a != b
    ensures 0 <= OtherAt(lines, m, route, a) && 0 <= OtherAt(lines, m, route, b)
    ensures OtherAt(lines, m, route, a) + OtherAt(lines, m, route, b) <= OtherReserve(lines, m, route)
  {
    if m > 0 {
      OtherSplit(lines, m - 1, route, a, b);
      if lines[m - 1].body.Admit? {
        AdmitPositive(lines, m - 1);
      }
    }
  }

  lemma {:induction false} OtherOne(lines: seq<Entry>, m: nat, route: string, tok: Tokens)
    requires Replay(lines).Some? && m <= |lines|
    ensures 0 <= OtherAt(lines, m, route, tok) <= OtherReserve(lines, m, route)
  {
    if m > 0 {
      OtherOne(lines, m - 1, route, tok);
      if lines[m - 1].body.Admit? {
        AdmitPositive(lines, m - 1);
      }
    }
  }

  /** The release's admissions of a route: cells at the cells' token bounds, each at
      most one request and a schedule, and everything else at one of its two bounds. */
  ghost predicate EditionLog(lines: seq<Entry>, route: string, cellTok: Tokens, probeTok: Tokens, schedule: int) {
    forall k :: 0 <= k < |lines| && lines[k].body.Admit? && lines[k].body.route == route ==>
      if lines[k].body.purpose.Cell?
      then lines[k].body.tokens == cellTok && lines[k].body.reserve <= 1 + schedule
      else lines[k].body.tokens == cellTok || lines[k].body.tokens == probeTok
  }

  lemma OneCellMore(cells: int, n: int)
    ensures (cells + 1) * n == cells * n + n
  {
  }

  /** What is charged at a pair of bounds: the cells', where they are the cells' bounds, and the others'. */
  lemma {:induction false} ChargesBound(lines: seq<Entry>, m: nat, route: string, tok: Tokens,
                                        cellTok: Tokens, probeTok: Tokens, schedule: int)
    requires Replay(lines).Some? && NoOverrunOn(lines, route) && m <= |lines| && schedule >= 0
    requires EditionLog(lines, route, cellTok, probeTok, schedule)
    ensures 0 <= LogCharge(lines, m, route, tok)
    ensures LogCharge(lines, m, route, tok)
            <= (if tok == cellTok then CellCount(lines, m, route) * (1 + schedule) else 0) + OtherAt(lines, m, route, tok)
    ensures tok != cellTok && tok != probeTok ==> LogCharge(lines, m, route, tok) == 0
  {
    if m > 0 {
      ChargesBound(lines, m - 1, route, tok, cellTok, probeTok, schedule);
      var e, cells := lines[m - 1], CellCount(lines, m - 1, route);
      OneCellMore(cells, 1 + schedule);
      if e.body.Admit? && e.body.route == route {
        ChargeWithin(lines, route, m - 1);
        assert if e.body.purpose.Cell? then e.body.tokens == cellTok && e.body.reserve <= 1 + schedule
               else e.body.tokens == cellTok || e.body.tokens == probeTok;
      }
    }
  }

  // ----- the route's worth at most

  lemma {:induction false} SumRZero<K(!new)>(keys: set<K>, f: K -> real)
    requires forall k :: k in keys ==> f(k) == 0.0
    ensures SumR(keys, f) == 0.0
    decreases |keys|
  {
    if keys != {} {
      var k :| k in keys;
      SumRSplit(keys, f, k);
      SumRZero(keys - {k}, f);
    }
  }

  lemma WorthOut(keys: set<Tokens>, f: Tokens -> real, a: Tokens)
    requires a !in keys ==> f(a) == 0.0
    ensures SumR(keys, f) == f(a) + SumR(keys - {a}, f)
  {
    if a in keys {
      SumRSplit(keys, f, a);
    } else {
      assert keys - {a} == keys;
    }
  }

  /** A charge at two pairs of bounds only. */
  lemma WorthOfTwo(n: map<Tokens, int>, p: map<Tokens, Usd>, a: Tokens, b: Tokens)
    requires forall t :: t in n && t != a && t != b ==> n[t] == 0
    ensures Worth(n, p) == TermOf(n, p)(a) + (if a == b then 0.0 else TermOf(n, p)(b))
  {
    var f := TermOf(n, p);
    WorthOut(n.Keys, f, a);
    if a == b {
      SumRZero(n.Keys - {a}, f);
    } else {
      WorthOut(n.Keys - {a}, f, b);
      SumRZero(n.Keys - {a} - {b}, f);
    }
  }

  lemma TermIs(st: State, route: string, tok: Tokens, price: Usd)
    requires PriceAt(st, route, tok) == Some(price)
    ensures TermOf(UsageOf(st, route).charged, UsageOf(st, route).prices)(tok) == Times(ChargedAt(st, route, tok), price)
  {
  }

  /** Charged at the release's two bounds alone, a route is worth its charge at each. */
  lemma WorthIs(lines: seq<Entry>, route: string, cellTok: Tokens, probeTok: Tokens, c: Usd, cProbe: Usd, schedule: int)
    requires Parse(lines).Some? && NoOverrunOn(lines, route) && schedule >= 0
    requires EditionLog(lines, route, cellTok, probeTok, schedule)
    requires PriceAt(Parse(lines).value, route, cellTok) == Some(c)
    requires PriceAt(Parse(lines).value, route, probeTok) == Some(cProbe)
    ensures var st := Parse(lines).value;
      RouteWorth(st, route) == Times(ChargedAt(st, route, cellTok), c)
                             + (if cellTok == probeTok then 0.0 else Times(ChargedAt(st, route, probeTok), cProbe))
  {
    var st, charged := Parse(lines).value, UsageOf(Parse(lines).value, route).charged;
    forall t | t in charged && t != cellTok && t != probeTok
      ensures charged[t] == 0
    {
      ChargeMeaning(lines, route, t);
      ChargesBound(lines, |lines|, route, t, cellTok, probeTok, schedule);
    }
    WorthOfTwo(charged, UsageOf(st, route).prices, cellTok, probeTok);
    TermIs(st, route, cellTok, c);
    TermIs(st, route, probeTok, cProbe);
  }

  /** What is charged at a pair of bounds is within the cells' reservations, where
      they are the cells' bounds, and the others'. */
  lemma ChargedWithin(lines: seq<Entry>, route: string, tok: Tokens, cellTok: Tokens, probeTok: Tokens, schedule: int)
    requires Parse(lines).Some? && NoOverrunOn(lines, route) && schedule >= 0
    requires EditionLog(lines, route, cellTok, probeTok, schedule)
    ensures 0 <= ChargedAt(Parse(lines).value, route, tok)
            <= (if tok == cellTok then CellCount(lines, |lines|, route) * (1 + schedule) else 0)
               + OtherAt(lines, |lines|, route, tok)
  {
    ChargeMeaning(lines, route, tok);
    ChargesBound(lines, |lines|, route, tok, cellTok, probeTok, schedule);
  }

  /** The most a route is worth: its cells' requests at their price, the others' at the dearer. */
  lemma WorthBound(lines: seq<Entry>, route: string, cellTok: Tokens, probeTok: Tokens, c: Usd, cProbe: Usd, most: Usd,
                   schedule: int)
    requires Parse(lines).Some? && NoOverrunOn(lines, route) && schedule >= 0 && c <= most && cProbe <= most
    requires EditionLog(lines, route, cellTok, probeTok, schedule)
    requires PriceAt(Parse(lines).value, route, cellTok) == Some(c)
    requires PriceAt(Parse(lines).value, route, probeTok) == Some(cProbe)
    ensures RouteWorth(Parse(lines).value, route)
         <= Times(CellCount(lines, |lines|, route) * (1 + schedule), c) + Times(OtherReserve(lines, |lines|, route), most)
  {
    var n := |lines|;
    WorthIs(lines, route, cellTok, probeTok, c, cProbe, schedule);
    ChargedWithin(lines, route, cellTok, cellTok, probeTok, schedule);
    OtherOne(lines, n, route, cellTok);
    var cells, atCell := CellCount(lines, n, route) * (1 + schedule), ChargedAt(Parse(lines).value, route, cellTok);
    C.IntMulMono(1 + schedule, 0, CellCount(lines, n, route));
    if cellTok == probeTok {
      BoundArithmetic(atCell, 0, cells, OtherAt(lines, n, route, cellTok), OtherReserve(lines, n, route), c, cProbe, most);
    } else {
      ChargedWithin(lines, route, probeTok, cellTok, probeTok, schedule);
      OtherSplit(lines, n, route, cellTok, probeTok);
      BoundArithmetic(atCell, ChargedAt(Parse(lines).value, route, probeTok), cells,
                      OtherAt(lines, n, route, cellTok), OtherReserve(lines, n, route), c, cProbe, most);
    }
  }

  lemma TimesSum(n: int, a: int, b: int, x: Usd, y: Usd)
    requires 0 <= n <= a + b && 0 <= a && 0 <= b && x <= y
    ensures Times(n, x) <= Times(a, x) + Times(b, y)
  {
    TimesAdd(a, b, x);
    TimesMono(n, a + b, x, x);
    TimesMono(b, b, x, y);
  }

  lemma TimesWithin(a: int, b: int, n: int, x: Usd)
    requires 0 <= a && 0 <= b && a + b <= n
    ensures Times(a, x) + Times(b, x) <= Times(n, x)
  {
    TimesAdd(a, b, x);
    TimesMono(a + b, n, x, x);
  }

  /** The cells' charge and the probes', each at its price, when the others share their requests. */
  lemma BoundArithmetic(atCell: int, atProbe: int, cells: int, o: int, other: int, c: Usd, cProbe: Usd, most: Usd)
    requires 0 <= atCell <= cells + o && 0 <= atProbe && atProbe + o <= other && 0 <= o && 0 <= cells
    requires c <= most && cProbe <= most
    ensures Times(atCell, c) + Times(atProbe, cProbe) <= Times(cells, c) + Times(other, most)
  {
    TimesSum(atCell, cells, o, c, most);
    TimesMono(atProbe, atProbe, cProbe, most);
    TimesWithin(atProbe, o, other, most);
  }

  // ----- what the route's cap must hold

  /** A release's terms with the ledger: what its cells and its other admissions may
      reserve of a route, and the prices the ledger counts them at. */
  datatype Terms = Terms(route: string, own: Tokens, probe: Tokens, c: Usd, cProbe: Usd, schedule: nat, cells: nat,
                         others: nat)
  {
    function Dearer(): Usd { if c < cProbe then cProbe else c }

    /** The most the edition can come to: every cell one request and a schedule, every other request at the dearer price. */
    function Worst(): real { Times(cells * (1 + schedule), c) + Times(others, Dearer()) }
  }

  /** A ledger within the terms: priced as they say, nothing overran, and the route's
      admissions are so many cells and other requests. */
  ghost predicate Within(lines: seq<Entry>, t: Terms) {
    && Parse(lines).Some? && NoOverrunOn(lines, t.route)
    && EditionLog(lines, t.route, t.own, t.probe, t.schedule)
    && PriceAt(Parse(lines).value, t.route, t.own) == Some(t.c)
    && PriceAt(Parse(lines).value, t.route, t.probe) == Some(t.cProbe)
    && CellCount(lines, |lines|, t.route) <= t.cells && OtherReserve(lines, |lines|, t.route) <= t.others
  }

  lemma WorstArithmetic(count: int, n: int, other: int, t: Terms)
    requires 0 <= count < t.cells && 1 <= n <= 1 + t.schedule && 0 <= other <= t.others
    ensures Times(count * (1 + t.schedule), t.c) + Times(other, t.Dearer()) + Times(n, t.c) <= t.Worst()
  {
    var size := 1 + t.schedule;
    OneCellMore(count, size);
    C.IntMulMono(size, count + 1, t.cells);
    C.IntMulMono(size, 0, count);
    TimesAdd(count * size, n, t.c);
    TimesMono(count * size + n, t.cells * size, t.c, t.c);
    TimesMono(other, t.others, t.Dearer(), t.Dearer());
  }

  /** The next cell's reservation always fits a cap that holds the worst edition. */
  lemma NextCellFits(lines: seq<Entry>, t: Terms, n: int)
    requires Within(lines, t) && CellCount(lines, |lines|, t.route) < t.cells && 1 <= n <= 1 + t.schedule
    ensures RouteWorth(Parse(lines).value, t.route) + Times(n, t.c) <= t.Worst()
  {
    WorthBound(lines, t.route, t.own, t.probe, t.c, t.cProbe, t.Dearer(), t.schedule);
    OtherOne(lines, |lines|, t.route, t.own);
    WorstArithmetic(CellCount(lines, |lines|, t.route), n, OtherReserve(lines, |lines|, t.route), t);
  }

  lemma CapHolds(st: State, t: Terms, n: int)
    requires t.route in st.routeCaps && PriceAt(st, t.route, t.own) == Some(t.c)
    requires RouteWorth(st, t.route) + Times(n, t.c) <= st.routeCaps[t.route]
    ensures Why(st, t.route, t.own, n) != Some(RouteLiability)
  {
  }

  /** Where the route's cap holds the worst edition, no cell admission is refused at it. */
  lemma CellNeverRefused(lines: seq<Entry>, t: Terms, n: int, rev: Option<int>, time: int)
    requires Within(lines, t) && CellCount(lines, |lines|, t.route) < t.cells && n <= 1 + t.schedule
    requires t.route in Parse(lines).value.routeCaps && t.Worst() <= Parse(lines).value.routeCaps[t.route]
    ensures Perform(lines, Reserve(t.route, Cell, n, t.own, rev), time).1 != RefusedFor(RouteLiability)
  {
    if WellAsked(Parse(lines).value, t.route, Cell, n, t.own, rev) {
      NextCellFits(lines, t, n);
      CapHolds(Parse(lines).value, t, n);
      AdmitExactly(lines, t.route, Cell, n, t.own, rev, time);
    } else {
      NotAsked(lines, t.route, Cell, n, t.own, rev, time);
    }
  }

  // ----- the edition test holds it

  /** The terms of a configuration's plan up to a step, at some prices: the probe
      allowance leaves one request a cell, each cell's own probe. */
  function TermsOf(cfg: C.Config, plan: C.Plan, prices: C.Prices, top: nat): Terms
    requires C.PlanFits(cfg, plan) && 1 <= top <= |cfg.steps| && plan.cells <= plan.probes
  {
    C.CellRequestsMono(cfg, plan, top - 1, top - 1);
    Terms(cfg.route, Tokens(cfg.input, cfg.ceiling), Tokens(cfg.input, cfg.probeCeiling), prices.c, prices.cProbe,
          C.CellRequests(plan, top - 1), plan.cells, plan.probes - plan.cells)
  }

  /** The edition test takes a cell's own probe at the probe's price, so it covers the worst edition. */
  lemma EditionCovers(cfg: C.Config, plan: C.Plan, prices: C.Prices, top: nat)
    requires C.PlanFits(cfg, plan) && 1 <= top <= |cfg.steps| && plan.cells <= plan.probes && prices.c <= prices.cProbe
    ensures TermsOf(cfg, plan, prices, top).Worst() <= C.EditionUSD(prices, plan, C.CellRequests(plan, top - 1))
  {
    C.CellRequestsMono(cfg, plan, top - 1, top - 1);
    var schedule, cells := C.CellRequests(plan, top - 1), plan.cells;
    C.IntMulMono(schedule, 0, cells);
    assert cells * (1 + schedule) == cells * schedule + cells;
    TimesAdd(cells * schedule, cells, prices.c);
    TimesMono(cells, cells, prices.c, prices.cProbe);
    TimesAdd(cells, plan.probes - cells, prices.cProbe);
  }

  /** End to end: where the edition test passes at the ledger's own highest prices, and
      the ledger is within the plan, no cell admission is refused at the route's cap. */
  lemma RouteCapNeverRefuses(lines: seq<Entry>, cfg: C.Config, plan: C.Plan, prices: C.Prices, top: nat, n: int,
                             rev: Option<int>, time: int)
    requires C.PlanFits(cfg, plan) && 1 <= top <= |cfg.steps| && plan.cells <= plan.probes && prices.c <= prices.cProbe
    requires C.RouteCapTest(cfg, top - 1, plan, prices).pass
    requires Within(lines, TermsOf(cfg, plan, prices, top))
    requires cfg.route in Parse(lines).value.routeCaps && Parse(lines).value.routeCaps[cfg.route] == cfg.routeCap
    requires CellCount(lines, |lines|, cfg.route) < plan.cells && n <= 1 + C.CellRequests(plan, top - 1)
    ensures Perform(lines, Reserve(cfg.route, Cell, n, Tokens(cfg.input, cfg.ceiling), rev), time).1
         != RefusedFor(RouteLiability)
  {
    EditionCovers(cfg, plan, prices, top);
    CellNeverRefused(lines, TermsOf(cfg, plan, prices, top), n, rev, time);
  }

  /** The ledger prices the route at no less than a verdict's prices, at both of its token bounds. */
  ghost predicate Covers(st: State, cfg: C.Config, prices: C.Prices) {
    var own, probe := PriceAt(st, cfg.route, Tokens(cfg.input, cfg.ceiling)),
                      PriceAt(st, cfg.route, Tokens(cfg.input, cfg.probeCeiling));
    own.Some? && own.value >= prices.c && probe.Some? && probe.value >= prices.cProbe
  }

  /** The price a route is charged at never falls. */
  lemma PricesOnlyRise(lines: seq<Entry>, longer: seq<Entry>, route: string, tok: Tokens)
    requires Parse(lines).Some? && Parse(longer).Some? && lines <= longer
    requires PriceAt(Parse(lines).value, route, tok).Some?
    ensures PriceAt(Parse(longer).value, route, tok).Some?
    ensures PriceAt(Parse(lines).value, route, tok).value <= PriceAt(Parse(longer).value, route, tok).value
  {
    PriceMeaning(lines, route, tok);
    PriceMeaning(longer, route, tok);
    var k :| 0 <= k < |lines| && PriceLineAt(lines[k], route, tok)
             && lines[k].body.perRequest == PriceAt(Parse(lines).value, route, tok).value;
    assert longer[k] == lines[k];
  }

  /** A verdict the ledger covers stays covered, whatever the processes do. */
  lemma CoversStays(lines: seq<Entry>, ops: seq<(Op, int)>, cfg: C.Config, prices: C.Prices)
    requires Parse(lines).Some? && Covers(Parse(lines).value, cfg, prices)
    ensures Parse(Run(lines, ops)).Some? && Covers(Parse(Run(lines, ops)).value, cfg, prices)
  {
    RunParses(lines, ops);
    PricesOnlyRise(lines, Run(lines, ops), cfg.route, Tokens(cfg.input, cfg.ceiling));
    PricesOnlyRise(lines, Run(lines, ops), cfg.route, Tokens(cfg.input, cfg.probeCeiling));
  }

  /** So every scheduled attempt fits: one request and its seeded schedule, cut at the
      top step, whatever its seed draws. */
  lemma ScheduledCellNeverRefused(lines: seq<Entry>, cfg: C.Config, ladder: L.Config, draws: L.Draws, plan: C.Plan,
                                  prices: C.Prices, top: nat, rev: Option<int>, time: int)
    requires C.PlanFits(cfg, plan) && 1 <= top <= |cfg.steps| == |ladder.steps| && plan.cells <= plan.probes
    requires prices.c <= prices.cProbe && C.RouteCapTest(cfg, top - 1, plan, prices).pass
    requires L.ValidConfig(ladder) && L.Unbounded(draws, ladder) && PlanCovers(plan, L.TheLadder(ladder, draws))
    requires Within(lines, TermsOf(cfg, plan, prices, top))
    requires cfg.route in Parse(lines).value.routeCaps && Parse(lines).value.routeCaps[cfg.route] == cfg.routeCap
    requires CellCount(lines, |lines|, cfg.route) < plan.cells
    ensures var n := 1 + |L.CutLadder(ladder, draws, top).offsets|;
      Perform(lines, Reserve(cfg.route, Cell, n, Tokens(cfg.input, cfg.ceiling), rev), time).1 != RefusedFor(RouteLiability)
  {
    CutWithinCell(plan, ladder, draws, top);
    RouteCapNeverRefuses(lines, cfg, plan, prices, top, 1 + |L.CutLadder(ladder, draws, top).offsets|, rev, time);
  }
}
