// The seeded dispatch ladder (internal/loadgen/schedule.go): a warm-up, then per
// step a measured window and a drain in which nothing is scheduled.
module Ladder {
  import opened Prelude

  datatype Process = Deterministic | Poisson | Unknown

  datatype Config = Config(process: Process, steps: seq<real>, warmupNs: nat, stepNs: nat, drainNs: nat)

  datatype LadderStep = LadderStep(rate: real, startNs: int, endNs: int, drainEndNs: int, first: nat, end: nat)

  datatype Ladder = Ladder(offsets: seq<int>, steps: seq<LadderStep>, endNs: int)

  predicate ValidConfig(cfg: Config) {
    |cfg.steps| > 0 && forall k :: 0 <= k < |cfg.steps| ==> cfg.steps[k] > 0.0
  }

  // ----- the seeded generator: a stream of exponential variates, read in order

  type Variate = x: real | x >= 0.0

  type Draws = nat -> Variate

  /** One inter-arrival gap in whole nanoseconds. */
  function Gap(draws: Draws, rate: real, i: nat): (ns: int)
    requires rate > 0.0
    ensures ns >= 0
  {
    var gap := draws(i) / rate * 1_000_000_000.0;
    assert draws(i) / rate >= 0.0;
    gap.Floor
  }

  function GapSum(draws: Draws, rate: real, pos: nat, n: nat): (ns: int)
    requires rate > 0.0
    ensures ns >= 0
  {
    if n == 0 then 0 else GapSum(draws, rate, pos, n - 1) + Gap(draws, rate, pos + n - 1)
  }

  lemma {:induction false} GapSumMono(draws: Draws, rate: real, pos: nat, m: nat, n: nat)
    requires rate > 0.0 && m <= n
    ensures GapSum(draws, rate, pos, m) <= GapSum(draws, rate, pos, n)
    decreases n
  {
    if m < n {
      GapSumMono(draws, rate, pos, m, n - 1);
    }
  }

  ghost predicate Passes(draws: Draws, rate: real, pos: nat, n: nat, bound: int)
    requires rate > 0.0
  {
    GapSum(draws, rate, pos, n) >= bound
  }

  ghost predicate EverPasses(draws: Draws, rate: real, pos: nat, bound: int)
    requires rate > 0.0
  {
    exists n: nat :: Passes(draws, rate, pos, n, bound)
  }

  /** From any point the stream's gaps at a rate pass any bound. */
  ghost predicate UnboundedAt(draws: Draws, rate: real)
    requires rate > 0.0
  {
    forall pos: nat, bound: int :: EverPasses(draws, rate, pos, bound)
  }

  /** A window's loop at a rate ends: Poisson arrivals alone draw gaps. */
  ghost predicate Feeds(process: Process, draws: Draws, rate: real)
    requires rate > 0.0
  {
    process.Poisson? ==> UnboundedAt(draws, rate)
  }

  /** The stream feeds every step of a ladder. */
  ghost predicate Unbounded(draws: Draws, cfg: Config)
    requires ValidConfig(cfg)
  {
    forall k :: 0 <= k < |cfg.steps| ==> Feeds(cfg.process, draws, cfg.steps[k])
  }

  /** A gap of a nanosecond or more, at a rate, from a position on. */
  ghost predicate HasGap(draws: Draws, rate: real, pos: nat)
    requires rate > 0.0
  {
    exists i: nat :: i >= pos && Gap(draws, rate, i) >= 1
  }

  /** The gaps pass every bound exactly when they never stop being a nanosecond or more. */
  lemma UnboundedExactly(draws: Draws, rate: real)
    requires rate > 0.0
    ensures UnboundedAt(draws, rate) <==> forall pos: nat :: HasGap(draws, rate, pos)
  {
    if UnboundedAt(draws, rate) {
      forall pos: nat
        ensures HasGap(draws, rate, pos)
      {
        assert EverPasses(draws, rate, pos, 1);
        var n: nat :| Passes(draws, rate, pos, n, 1);
        SomeGap(draws, rate, pos, n);
      }
    }
    if forall pos: nat :: HasGap(draws, rate, pos) {
      forall pos: nat, bound: int
        ensures EverPasses(draws, rate, pos, bound)
      {
        var least: nat := if bound < 0 then 0 else bound;
        GapsPass(draws, rate, pos, least);
        var n: nat :| Passes(draws, rate, pos, n, least);
        assert Passes(draws, rate, pos, n, bound);
      }
    }
  }

  lemma {:induction false} SomeGap(draws: Draws, rate: real, pos: nat, n: nat)
    requires rate > 0.0 && GapSum(draws, rate, pos, n) >= 1
    ensures HasGap(draws, rate, pos)
    decreases n
  {
    if n > 0 && Gap(draws, rate, pos + n - 1) == 0 {
      SomeGap(draws, rate, pos, n - 1);
    }
  }

  lemma {:induction false} GapsPass(draws: Draws, rate: real, pos: nat, bound: nat)
    requires rate > 0.0 && forall p: nat :: HasGap(draws, rate, p)
    ensures EverPasses(draws, rate, pos, bound)
    decreases bound
  {
    if bound == 0 {
      assert Passes(draws, rate, pos, 0, 0);
    } else {
      GapsPass(draws, rate, pos, bound - 1);
      var n: nat :| Passes(draws, rate, pos, n, bound - 1);
      assert HasGap(draws, rate, pos + n);
      var i: nat :| i >= pos + n && Gap(draws, rate, i) >= 1;
      GapSumMono(draws, rate, pos, n, i - pos);
      assert Passes(draws, rate, pos, i - pos + 1, bound);
    }
  }

  /** A generator that repeats itself, however long its period and however small its
      draws, feeds every rate at which any one gap is a nanosecond or more. */
  lemma PeriodicFeeds(draws: Draws, rate: real, period: nat, i: nat)
    requires rate > 0.0 && period > 0 && Gap(draws, rate, i) >= 1
    requires forall j: nat :: draws(j + period) == draws(j)
    ensures UnboundedAt(draws, rate)
  {
    forall pos: nat
      ensures HasGap(draws, rate, pos)
    {
      var j := Repeats(draws, rate, period, i, pos);
    }
    UnboundedExactly(draws, rate);
  }

  lemma {:induction false} Repeats(draws: Draws, rate: real, period: nat, i: nat, pos: nat) returns (j: nat)
    requires rate > 0.0 && period > 0 && Gap(draws, rate, i) >= 1
    requires forall k: nat :: draws(k + period) == draws(k)
    ensures j >= pos && Gap(draws, rate, j) >= 1
    decreases pos - i
  {
    if i >= pos {
      j := i;
    } else {
      assert draws(i + period) == draws(i);
      j := Repeats(draws, rate, period, i + period, pos);
    }
  }

  // ----- one window's arrivals

  /** n arrivals fall in a window of some length, and the next passes its end. */
  ghost predicate Fills(draws: Draws, rate: real, pos: nat, length: int, n: nat)
    requires rate > 0.0
  {
    && (forall i :: 1 <= i <= n ==> GapSum(draws, rate, pos, i) < length)
    && GapSum(draws, rate, pos, n + 1) >= length
  }

  lemma FillsExists(draws: Draws, rate: real, pos: nat, length: int)
    requires rate > 0.0 && UnboundedAt(draws, rate)
    ensures exists n: nat :: Fills(draws, rate, pos, length, n)
  {
    assert EverPasses(draws, rate, pos, length);
    var k: nat :| Passes(draws, rate, pos, k, length);
    GapSumMono(draws, rate, pos, k, k + 1);
    var n: nat := 0;
    while GapSum(draws, rate, pos, n + 1) < length
      invariant n <= k
      invariant forall i :: 1 <= i <= n ==> GapSum(draws, rate, pos, i) < length
      decreases k - n
    {
      if n == k {
        assert false;
      }
      n := n + 1;
    }
    assert Fills(draws, rate, pos, length, n);
  }

  /** How many arrivals a Poisson window holds. */
  ghost function PoissonCount(draws: Draws, rate: real, pos: nat, length: int): (n: nat)
    requires rate > 0.0 && UnboundedAt(draws, rate)
    ensures Fills(draws, rate, pos, length, n)
  {
    FillsExists(draws, rate, pos, length);
    var n: nat :| Fills(draws, rate, pos, length, n);
    n
  }

  function DeterministicCount(rate: real, length: nat): (n: nat)
    requires rate > 0.0
  {
    var n := length as real / 1_000_000_000.0 * rate;
    assert length as real / 1_000_000_000.0 >= 0.0;
    n.Floor
  }

  function DeterministicAt(rate: real, i: nat): int
    requires rate > 0.0
  {
    (i as real * 1_000_000_000.0 / rate).Floor
  }

  /** The dispatch times of one window [start, start + length) at a rate. */
  ghost function WindowTimes(process: Process, draws: Draws, pos: nat, rate: real, start: int, length: nat): seq<int>
    requires rate > 0.0 && Feeds(process, draws, rate)
  {
    match process
    case Deterministic => seq(DeterministicCount(rate, length), i requires i >= 0 => start + DeterministicAt(rate, i))
    case Poisson => seq(PoissonCount(draws, rate, pos, length), i requires i >= 0 => start + GapSum(draws, rate, pos, i + 1))
    case Unknown => []
  }

  /** The draws a window reads: one a dispatch, and the one that passes its end. */
  ghost function DrawsRead(process: Process, draws: Draws, pos: nat, rate: real, length: nat): nat
    requires rate > 0.0 && Feeds(process, draws, rate)
  {
    if process.Poisson? then PoissonCount(draws, rate, pos, length) + 1 else 0
  }

  ghost predicate Ordered(s: seq<int>) {
    forall i, j :: 0 <= i < j < |s| ==> s[i] <= s[j]
  }

  lemma DeterministicInside(rate: real, length: nat, i: nat)
    requires rate > 0.0 && i < DeterministicCount(rate, length)
    ensures 0 <= DeterministicAt(rate, i) < length
  {
    var x := i as real * 1_000_000_000.0 / rate;
    var n := length as real / 1_000_000_000.0 * rate;
    assert i as real + 1.0 <= n;
    assert x >= 0.0;
    assert x * rate == i as real * 1_000_000_000.0;
    assert n * 1_000_000_000.0 == length as real * rate;
    if x >= length as real {
      MulLess(length as real, x, rate);
      assert false;
    }
  }

  lemma MulLess(a: real, b: real, r: real)
    requires a <= b && r > 0.0
    ensures a * r <= b * r
  {
  }

  lemma DeterministicOrdered(rate: real, i: nat, j: nat)
    requires rate > 0.0 && i <= j
    ensures DeterministicAt(rate, i) <= DeterministicAt(rate, j)
  {
    var x, y := i as real * 1_000_000_000.0, j as real * 1_000_000_000.0;
    assert x <= y;
    DivLess(x, y, rate);
  }

  lemma DivLess(x: real, y: real, rate: real)
    requires rate > 0.0 && x <= y
    ensures x / rate <= y / rate
  {
    var d := (y - x) / rate;
    assert y / rate == x / rate + d;
  }

  /** A window's times ascend inside it. */
  lemma WindowInside(process: Process, draws: Draws, pos: nat, rate: real, start: int, length: nat)
    requires rate > 0.0 && Feeds(process, draws, rate)
    ensures var s := WindowTimes(process, draws, pos, rate, start, length);
      && Ordered(s)
      && forall i :: 0 <= i < |s| ==> start <= s[i] < start + length
  {
    var s := WindowTimes(process, draws, pos, rate, start, length);
    match process
    case Deterministic =>
      forall i | 0 <= i < |s|
        ensures start <= s[i] < start + length
      {
        DeterministicInside(rate, length, i);
      }
      forall i, j | 0 <= i < j < |s|
        ensures s[i] <= s[j]
      {
        DeterministicOrdered(rate, i, j);
      }
    case Poisson =>
      forall i, j | 0 <= i < j < |s|
        ensures s[i] <= s[j]
      {
        GapSumMono(draws, rate, pos, i + 1, j + 1);
      }
    case Unknown =>
  }

  /** Append one window's dispatch times, reading the generator from pos. */
  method Arrivals(offsets: seq<int>, process: Process, draws: Draws, pos: nat, rate: real, start: int, length: nat)
    returns (out: seq<int>, after: nat)
    requires rate > 0.0 && Feeds(process, draws, rate)
    ensures out == offsets + WindowTimes(process, draws, pos, rate, start, length)
    ensures after == pos + DrawsRead(process, draws, pos, rate, length)
  {
    out, after := offsets, pos;
    match process
    case Deterministic =>
      for i := 0 to DeterministicCount(rate, length)
        invariant out == offsets + WindowTimes(process, draws, pos, rate, start, length)[..i]
      {
        out := out + [start + DeterministicAt(rate, i)];
      }
    case Poisson =>
      ghost var n := PoissonCount(draws, rate, pos, length);
      var t, k := start, 0;
      while true
        invariant after == pos + k && k <= n
        invariant t == start + GapSum(draws, rate, pos, k)
        invariant out == offsets + WindowTimes(process, draws, pos, rate, start, length)[..k]
        decreases n - k
      {
        t := t + Gap(draws, rate, after);
        after := after + 1;
        if t >= start + length {
          assert GapSum(draws, rate, pos, k + 1) >= length;
          break;
        }
        k := k + 1;
        out := out + [t];
      }
    case Unknown =>
  }

  // ----- the ladder

  datatype Building = Building(ladder: Ladder, pos: nat)

  /** The ladder's warm-up and its first k steps. */
  ghost function LadderUpTo(cfg: Config, draws: Draws, k: nat): Building
    requires ValidConfig(cfg) && Unbounded(draws, cfg) && k <= |cfg.steps|
  {
    if k == 0 then
      Building(Ladder(WindowTimes(cfg.process, draws, 0, cfg.steps[0], 0, cfg.warmupNs), [], cfg.warmupNs),
               DrawsRead(cfg.process, draws, 0, cfg.steps[0], cfg.warmupNs))
    else
      var b, rate := LadderUpTo(cfg, draws, k - 1), cfg.steps[k - 1];
      var start, l := b.ladder.endNs, b.ladder;
      var offsets := l.offsets + WindowTimes(cfg.process, draws, b.pos, rate, start, cfg.stepNs);
      var end := start + cfg.stepNs;
      var step := LadderStep(rate, start, end, end + cfg.drainNs, |l.offsets|, |offsets|);
      Building(Ladder(offsets, l.steps + [step], end + cfg.drainNs),
               b.pos + DrawsRead(cfg.process, draws, b.pos, rate, cfg.stepNs))
  }

  ghost function TheLadder(cfg: Config, draws: Draws): Ladder
    requires ValidConfig(cfg) && Unbounded(draws, cfg)
  {
    LadderUpTo(cfg, draws, |cfg.steps|).ladder
  }

  method BuildLadder(cfg: Config, draws: Draws) returns (l: Ladder)
    requires ValidConfig(cfg) && Unbounded(draws, cfg)
    ensures l == TheLadder(cfg, draws)
  {
    var offsets, pos := Arrivals([], cfg.process, draws, 0, cfg.steps[0], 0, cfg.warmupNs);
    var t: int, steps := cfg.warmupNs, [];
    assert offsets == WindowTimes(cfg.process, draws, 0, cfg.steps[0], 0, cfg.warmupNs);
    for k := 0 to |cfg.steps|
      invariant Building(Ladder(offsets, steps, t), pos) == LadderUpTo(cfg, draws, k)
    {
      var rate, start, first := cfg.steps[k], t, |offsets|;
      var end := start + cfg.stepNs;
      offsets, pos := Arrivals(offsets, cfg.process, draws, pos, rate, start, cfg.stepNs);
      steps := steps + [LadderStep(rate, start, end, end + cfg.drainNs, first, |offsets|)];
      t := end + cfg.drainNs;
    }
    return Ladder(offsets, steps, t);
  }

  // ----- what a ladder is

  ghost predicate Inside(offsets: seq<int>, first: nat, end: nat, lo: int, hi: int)
    requires first <= end <= |offsets|
  {
    forall i :: first <= i < end ==> lo <= offsets[i] < hi
  }

  /** A ladder: ascending offsets; the warm-up's first, then every step's, side by
      side to the last offset, each inside its window; windows and drains side by side. */
  ghost predicate WellFormed(l: Ladder, cfg: Config) {
    && Ordered(l.offsets)
    && (forall i :: 0 <= i < |l.offsets| ==> l.offsets[i] < l.endNs)
    && (l.steps == [] ==> l.endNs == cfg.warmupNs)
    && (l.steps != [] ==>
          && l.steps[|l.steps| - 1].end == |l.offsets|
          && l.steps[|l.steps| - 1].drainEndNs == l.endNs
          && l.steps[0].startNs == cfg.warmupNs
          && l.steps[0].first <= |l.offsets| && Inside(l.offsets, 0, l.steps[0].first, 0, cfg.warmupNs))
    && (forall k :: 0 <= k < |l.steps| ==> StepWell(l, cfg, k))
  }

  ghost predicate StepWell(l: Ladder, cfg: Config, k: nat)
    requires k < |l.steps|
  {
    var s := l.steps[k];
    && s.first <= s.end <= |l.offsets|
    && s.endNs == s.startNs + cfg.stepNs && s.drainEndNs == s.endNs + cfg.drainNs
    && Inside(l.offsets, s.first, s.end, s.startNs, s.endNs)
    && (k > 0 ==> s.first == l.steps[k - 1].end && s.startNs == l.steps[k - 1].drainEndNs)
  }

  lemma OrderedAppend(a: seq<int>, b: seq<int>, t: int)
    requires Ordered(a) && Ordered(b)
    requires forall i :: 0 <= i < |a| ==> a[i] < t
    requires forall i :: 0 <= i < |b| ==> t <= b[i]
    ensures Ordered(a + b)
  {
    forall i, j | 0 <= i < j < |a + b|
      ensures (a + b)[i] <= (a + b)[j]
    {
      assert (a + b)[i] == if i < |a| then a[i] else b[i - |a|];
      assert (a + b)[j] == if j < |a| then a[j] else b[j - |a|];
    }
  }

  /** Adding a step's window to a well-formed ladder. */
  lemma AddStep(l: Ladder, cfg: Config, times: seq<int>, rate: real)
    requires WellFormed(l, cfg) && Ordered(times)
    requires forall i :: 0 <= i < |times| ==> l.endNs <= times[i] < l.endNs + cfg.stepNs
    requires l.steps == [] ==> Inside(l.offsets, 0, |l.offsets|, 0, cfg.warmupNs)
    ensures var end, offsets := l.endNs + cfg.stepNs, l.offsets + times;
      var step := LadderStep(rate, l.endNs, end, end + cfg.drainNs, |l.offsets|, |offsets|);
      WellFormed(Ladder(offsets, l.steps + [step], end + cfg.drainNs), cfg)
  {
    var end, offsets := l.endNs + cfg.stepNs, l.offsets + times;
    var step := LadderStep(rate, l.endNs, end, end + cfg.drainNs, |l.offsets|, |offsets|);
    var m := Ladder(offsets, l.steps + [step], end + cfg.drainNs);
    OrderedAppend(l.offsets, times, l.endNs);
    forall k | 0 <= k < |m.steps|
      ensures StepWell(m, cfg, k)
    {
      if k < |l.steps| {
        assert StepWell(l, cfg, k);
        assert m.steps[k] == l.steps[k];
      }
    }
    if l.steps != [] {
      assert m.steps[0] == l.steps[0];
    }
  }

  lemma {:induction false} UpToWellFormed(cfg: Config, draws: Draws, k: nat)
    requires ValidConfig(cfg) && Unbounded(draws, cfg) && k <= |cfg.steps|
    ensures WellFormed(LadderUpTo(cfg, draws, k).ladder, cfg)
    ensures |LadderUpTo(cfg, draws, k).ladder.steps| == k
    ensures k == 0 ==> var l := LadderUpTo(cfg, draws, 0).ladder; Inside(l.offsets, 0, |l.offsets|, 0, cfg.warmupNs)
  {
    if k == 0 {
      WindowInside(cfg.process, draws, 0, cfg.steps[0], 0, cfg.warmupNs);
    } else {
      UpToWellFormed(cfg, draws, k - 1);
      var b := LadderUpTo(cfg, draws, k - 1);
      WindowInside(cfg.process, draws, b.pos, cfg.steps[k - 1], b.ladder.endNs, cfg.stepNs);
      AddStep(b.ladder, cfg, WindowTimes(cfg.process, draws, b.pos, cfg.steps[k - 1], b.ladder.endNs, cfg.stepNs), cfg.steps[k - 1]);
    }
  }

  /** Every ladder is well formed, whatever the generator's stream. */
  lemma LadderWellFormed(cfg: Config, draws: Draws)
    requires ValidConfig(cfg) && Unbounded(draws, cfg)
    ensures WellFormed(TheLadder(cfg, draws), cfg)
    ensures |TheLadder(cfg, draws).steps| == |cfg.steps|
  {
    UpToWellFormed(cfg, draws, |cfg.steps|);
  }

  /** Nothing is scheduled in a drain. */
  lemma DrainsEmpty(l: Ladder, cfg: Config, k: nat, i: nat)
    requires WellFormed(l, cfg) && k < |l.steps| && i < |l.offsets|
    ensures !(l.steps[k].endNs <= l.offsets[i] < l.steps[k].drainEndNs)
  {
    var s := l.steps[k];
    assert StepWell(l, cfg, k);
    if i < s.end {
      BeforeEnd(l, cfg, k, i);
    } else {
      AfterDrain(l, cfg, k, i);
    }
  }

  lemma {:induction false} BeforeEnd(l: Ladder, cfg: Config, k: nat, i: nat)
    requires WellFormed(l, cfg) && k < |l.steps| && StepWell(l, cfg, k) && i < l.steps[k].end
    ensures l.offsets[i] < l.steps[k].endNs
    decreases k
  {
    var s := l.steps[k];
    if i < s.first && k > 0 {
      assert StepWell(l, cfg, k - 1);
      BeforeEnd(l, cfg, k - 1, i);
    }
  }

  lemma {:induction false} AfterDrain(l: Ladder, cfg: Config, k: nat, i: nat)
    requires WellFormed(l, cfg) && k < |l.steps| && l.steps[k].end <= i < |l.offsets|
    ensures l.steps[k].drainEndNs <= l.offsets[i]
    decreases |l.steps| - k
  {
    if k + 1 < |l.steps| {
      assert StepWell(l, cfg, k) && StepWell(l, cfg, k + 1);
      var s := l.steps[k + 1];
      if i >= s.end {
        AfterDrain(l, cfg, k + 1, i);
      }
    }
  }

  // ----- the cut ladder

  /** A cell's configuration: the ladder cut at the top admitted step. */
  function Cut(cfg: Config, k: nat): Config
    requires k <= |cfg.steps|
  {
    cfg.(steps := cfg.steps[..k])
  }

  lemma CutFed(cfg: Config, draws: Draws, k: nat)
    requires ValidConfig(cfg) && Unbounded(draws, cfg) && 1 <= k <= |cfg.steps|
    ensures ValidConfig(Cut(cfg, k)) && Unbounded(draws, Cut(cfg, k))
  {
    assert forall j :: 0 <= j < k ==> Cut(cfg, k).steps[j] == cfg.steps[j];
  }

  /** The ladder a cell runs. */
  ghost function CutLadder(cfg: Config, draws: Draws, k: nat): Ladder
    requires ValidConfig(cfg) && Unbounded(draws, cfg) && 1 <= k <= |cfg.steps|
  {
    CutFed(cfg, draws, k);
    TheLadder(Cut(cfg, k), draws)
  }

  lemma {:induction false} CutSame(cfg: Config, draws: Draws, k: nat, j: nat)
    requires ValidConfig(cfg) && Unbounded(draws, cfg) && 1 <= k <= |cfg.steps| && j <= k
    ensures ValidConfig(Cut(cfg, k)) && Unbounded(draws, Cut(cfg, k))
    ensures LadderUpTo(Cut(cfg, k), draws, j) == LadderUpTo(cfg, draws, j)
  {
    CutFed(cfg, draws, k);
    if j > 0 {
      CutSame(cfg, draws, k, j - 1);
    }
  }

  lemma {:induction false} UpToPrefix(cfg: Config, draws: Draws, j: nat, k: nat)
    requires ValidConfig(cfg) && Unbounded(draws, cfg) && j <= k <= |cfg.steps|
    ensures LadderUpTo(cfg, draws, j).ladder.offsets <= LadderUpTo(cfg, draws, k).ladder.offsets
    ensures LadderUpTo(cfg, draws, j).ladder.steps <= LadderUpTo(cfg, draws, k).ladder.steps
    decreases k
  {
    if j < k {
      UpToPrefix(cfg, draws, j, k - 1);
    }
  }

  /** The cut ladder's schedule is a prefix of the whole ladder's: its offsets are
      those up to the end of step k, its steps the first k. */
  lemma CutIsPrefix(cfg: Config, draws: Draws, k: nat)
    requires ValidConfig(cfg) && Unbounded(draws, cfg) && 1 <= k <= |cfg.steps|
    ensures var whole, cut := TheLadder(cfg, draws), CutLadder(cfg, draws, k);
      && |whole.steps| == |cfg.steps| && whole.steps[k - 1].end <= |whole.offsets|
      && cut.offsets == whole.offsets[..whole.steps[k - 1].end]
      && cut.steps == whole.steps[..k]
  {
    CutSame(cfg, draws, k, k);
    UpToPrefix(cfg, draws, k, |cfg.steps|);
    UpToWellFormed(cfg, draws, k);
    UpToWellFormed(cfg, draws, |cfg.steps|);
    var whole, cut := TheLadder(cfg, draws), CutLadder(cfg, draws, k);
    assert cut.steps[k - 1] == whole.steps[k - 1];
    assert StepWell(whole, cfg, k - 1);
  }
}
