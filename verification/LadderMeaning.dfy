// What a ladder schedules, dispatch by dispatch (internal/loadgen/schedule.go): each
// step's windows at its own rate, and each draw of the generator read once, in order.
module LadderMeaning {
  import opened Prelude
  import opened Ladder

  /** So many inter-arrival periods at a rate, in nanoseconds. */
  function Span(x: real, rate: real): real
    requires rate > 0.0
  {
    x / rate * 1_000_000_000.0
  }

  /** ns is x periods at a rate, in whole nanoseconds. */
  ghost predicate Periods(ns: int, x: real, rate: real)
    requires rate > 0.0
  {
    ns as real <= Span(x, rate) < ns as real + 1.0
  }

  /** A Poisson gap is its draw's length at the rate, cut to a nanosecond. */
  lemma GapIs(draws: Draws, rate: real, i: nat)
    requires rate > 0.0
    ensures Periods(Gap(draws, rate, i), draws(i), rate)
  {
  }

  lemma DeterministicIs(rate: real, i: nat)
    requires rate > 0.0
    ensures Periods(DeterministicAt(rate, i), i as real, rate)
  {
    ScaleDiv(i as real, rate);
  }

  lemma ScaleDiv(x: real, rate: real)
    requires rate > 0.0
    ensures x * 1_000_000_000.0 / rate == Span(x, rate)
  {
    var y := x / rate;
    assert y * rate == x;
  }

  /** n whole periods at a rate fit a length, and no more. */
  ghost predicate Fit(n: int, rate: real, length: nat) {
    n as real * 1_000_000_000.0 <= length as real * rate < (n as real + 1.0) * 1_000_000_000.0
  }

  /** A deterministic window holds every whole period of its rate. */
  lemma CountIs(rate: real, length: nat)
    requires rate > 0.0
    ensures Fit(DeterministicCount(rate, length), rate, length)
  {
    var q := length as real / 1_000_000_000.0 * rate;
    assert q * 1_000_000_000.0 == length as real * rate;
  }

  /** The times of one window: at a steady rate, every whole period from its start; at random,
      each a draw's length after the one before, to the draw that passes its end. */
  ghost predicate Window(process: Process, draws: Draws, pos: nat, rate: real, start: int, length: nat, times: seq<int>)
    requires rate > 0.0
  {
    match process
    case Deterministic =>
      Fit(|times|, rate, length) && forall i :: 0 <= i < |times| ==> Periods(times[i] - start, i as real, rate)
    case Poisson =>
      && (forall i :: 0 <= i < |times| ==> Periods(times[i] - Before(start, times, i), draws(pos + i), rate))
      && (forall i :: 0 <= i < |times| ==> times[i] < start + length)
      && Outlasts(draws(pos + |times|), rate, start + length - Before(start, times, |times|))
    case Unknown => times == []
  }

  /** A draw's length at the rate is no less than what is left of the window. */
  ghost predicate Outlasts(draw: real, rate: real, left: int)
    requires rate > 0.0
  {
    exists ns :: Periods(ns, draw, rate) && ns >= left
  }

  ghost function Before(start: int, times: seq<int>, i: nat): int
    requires i <= |times|
  {
    if i == 0 then start else times[i - 1]
  }

  lemma SteadyWindow(draws: Draws, pos: nat, rate: real, start: int, length: nat, times: seq<int>)
    requires rate > 0.0 && times == WindowTimes(Deterministic, draws, pos, rate, start, length)
    ensures Window(Deterministic, draws, pos, rate, start, length, times)
  {
    CountIs(rate, length);
    forall i | 0 <= i < |times|
      ensures Periods(times[i] - start, i as real, rate)
    {
      DeterministicIs(rate, i);
      assert times[i] - start == DeterministicAt(rate, i);
    }
  }

  lemma RandomTime(draws: Draws, pos: nat, rate: real, start: int, length: nat, times: seq<int>, i: nat)
    requires rate > 0.0 && Feeds(Poisson, draws, rate) && times == WindowTimes(Poisson, draws, pos, rate, start, length)
    requires i < |times|
    ensures Before(start, times, i) == start + GapSum(draws, rate, pos, i)
    ensures times[i] - Before(start, times, i) == Gap(draws, rate, pos + i)
    ensures times[i] < start + length
  {
    assert Fills(draws, rate, pos, length, |times|);
    assert times[i] == start + GapSum(draws, rate, pos, i + 1);
  }

  lemma RandomEnd(draws: Draws, pos: nat, rate: real, start: int, length: nat, times: seq<int>)
    requires rate > 0.0 && Feeds(Poisson, draws, rate) && times == WindowTimes(Poisson, draws, pos, rate, start, length)
    ensures Before(start, times, |times|) + Gap(draws, rate, pos + |times|) >= start + length
  {
    var n := |times|;
    assert Fills(draws, rate, pos, length, n);
    assert Before(start, times, n) == start + GapSum(draws, rate, pos, n);
  }

  lemma RandomWindow(draws: Draws, pos: nat, rate: real, start: int, length: nat, times: seq<int>)
    requires rate > 0.0 && Feeds(Poisson, draws, rate) && times == WindowTimes(Poisson, draws, pos, rate, start, length)
    ensures Window(Poisson, draws, pos, rate, start, length, times)
  {
    forall i | 0 <= i < |times|
      ensures Periods(times[i] - Before(start, times, i), draws(pos + i), rate) && times[i] < start + length
    {
      RandomTime(draws, pos, rate, start, length, times, i);
      GapIs(draws, rate, pos + i);
    }
    RandomEnd(draws, pos, rate, start, length, times);
    LastOutlasts(draws, pos + |times|, rate, start + length - Before(start, times, |times|));
  }

  lemma LastOutlasts(draws: Draws, i: nat, rate: real, left: int)
    requires rate > 0.0 && Gap(draws, rate, i) >= left
    ensures Outlasts(draws(i), rate, left)
  {
    GapIs(draws, rate, i);
  }

  lemma WindowIs(process: Process, draws: Draws, pos: nat, rate: real, start: int, length: nat, times: seq<int>)
    requires rate > 0.0 && Feeds(process, draws, rate) && times == WindowTimes(process, draws, pos, rate, start, length)
    ensures Window(process, draws, pos, rate, start, length, times)
  {
    match process
    case Deterministic => SteadyWindow(draws, pos, rate, start, length, times);
    case Poisson => RandomWindow(draws, pos, rate, start, length, times);
    case Unknown =>
  }

  /** How many draws are read before a step whose first dispatch is first: one for each dispatch,
      and one past the end of the warm-up and of each step before it. */
  function DrawsUpTo(process: Process, first: nat, k: nat): nat { if process.Poisson? then first + k + 1 else 0 }

  lemma {:induction false} DrawsBefore(cfg: Config, draws: Draws, k: nat)
    requires ValidConfig(cfg) && Unbounded(draws, cfg) && k <= |cfg.steps|
    ensures LadderUpTo(cfg, draws, k).pos == DrawsUpTo(cfg.process, |LadderUpTo(cfg, draws, k).ladder.offsets|, k)
  {
    if k > 0 {
      DrawsBefore(cfg, draws, k - 1);
    }
  }

  /** Step k of a ladder is the window added to the ladder before it. */
  lemma StepAdded(cfg: Config, draws: Draws, k: nat)
    requires ValidConfig(cfg) && Unbounded(draws, cfg) && k < |cfg.steps|
    ensures var b, l := LadderUpTo(cfg, draws, k), LadderUpTo(cfg, draws, k + 1).ladder;
      && |l.steps| == |b.ladder.steps| + 1
      && var s := l.steps[|b.ladder.steps|];
         && s.rate == cfg.steps[k] && s.startNs == b.ladder.endNs
         && s.first == |b.ladder.offsets| <= s.end == |l.offsets|
         && l.offsets[s.first..s.end] == WindowTimes(cfg.process, draws, b.pos, cfg.steps[k], b.ladder.endNs, cfg.stepNs)
  {
  }

  lemma StepIs(cfg: Config, draws: Draws, k: nat)
    requires ValidConfig(cfg) && Unbounded(draws, cfg) && k < |cfg.steps|
    ensures var l := TheLadder(cfg, draws);
      && |l.steps| == |cfg.steps| && l.steps[k].rate == cfg.steps[k] && l.steps[k].first <= l.steps[k].end <= |l.offsets|
      && l.offsets[l.steps[k].first..l.steps[k].end]
           == WindowTimes(cfg.process, draws, DrawsUpTo(cfg.process, l.steps[k].first, k), cfg.steps[k],
                          l.steps[k].startNs, cfg.stepNs)
  {
    StepAdded(cfg, draws, k);
    DrawsBefore(cfg, draws, k);
    UpToPrefix(cfg, draws, k + 1, |cfg.steps|);
    UpToWellFormed(cfg, draws, |cfg.steps|);
    UpToWellFormed(cfg, draws, k);
    SamePart(LadderUpTo(cfg, draws, k + 1).ladder, TheLadder(cfg, draws), k);
  }

  /** A step of a ladder's prefix is the ladder's. */
  lemma SamePart(part: Ladder, whole: Ladder, k: nat)
    requires part.steps <= whole.steps && part.offsets <= whole.offsets && k < |part.steps|
    requires part.steps[k].first <= part.steps[k].end <= |part.offsets|
    ensures whole.steps[k] == part.steps[k]
    ensures whole.offsets[whole.steps[k].first..whole.steps[k].end] == part.offsets[part.steps[k].first..part.steps[k].end]
  {
  }

  /** Every dispatch of a ladder: each step's at its own rate from its own start, and the draws
      read in order, one for each dispatch and one past each window's end. */
  lemma LadderExactly(cfg: Config, draws: Draws, k: nat)
    requires ValidConfig(cfg) && Unbounded(draws, cfg) && k < |cfg.steps|
    ensures var l := TheLadder(cfg, draws);
      && |l.steps| == |cfg.steps| && l.steps[k].rate == cfg.steps[k] && l.steps[k].first <= l.steps[k].end <= |l.offsets|
      && Window(cfg.process, draws, DrawsUpTo(cfg.process, l.steps[k].first, k), cfg.steps[k], l.steps[k].startNs,
                cfg.stepNs, l.offsets[l.steps[k].first..l.steps[k].end])
  {
    StepIs(cfg, draws, k);
    var s := TheLadder(cfg, draws).steps[k];
    WindowIs(cfg.process, draws, DrawsUpTo(cfg.process, s.first, k), cfg.steps[k], s.startNs, cfg.stepNs,
             TheLadder(cfg, draws).offsets[s.first..s.end]);
  }

  /** And the warm-up: the first step's rate, from the epoch, the first draws. */
  lemma WarmupExactly(cfg: Config, draws: Draws)
    requires ValidConfig(cfg) && Unbounded(draws, cfg)
    ensures var l := TheLadder(cfg, draws);
      && l.steps != [] && l.steps[0].first <= |l.offsets|
      && Window(cfg.process, draws, 0, cfg.steps[0], 0, cfg.warmupNs, l.offsets[..l.steps[0].first])
  {
    StepAdded(cfg, draws, 0);
    UpToPrefix(cfg, draws, 0, |cfg.steps|);
    UpToPrefix(cfg, draws, 1, |cfg.steps|);
    var l := TheLadder(cfg, draws);
    assert l.offsets[..l.steps[0].first] == LadderUpTo(cfg, draws, 0).ladder.offsets;
    WindowIs(cfg.process, draws, 0, cfg.steps[0], 0, cfg.warmupNs, l.offsets[..l.steps[0].first]);
  }
}
