// What a detection means of the run's requests (internal/detect/detect.go): the earliest
// second from which every window holds enough good requests, in counts and times alone.
module DetectMeaning {
  import opened Prelude
  import opened Detect

  // ----- the scanned seconds

  /** The scan starts at the first bucket that starts no sooner than it, and a window starts in
      a bucket that ends by the timeout. */
  lemma ScanExactly(b: seq<Bucket>, scanFrom: int, timeout: int, k: nat)
    requires b != []
    ensures k >= First(b, scanFrom) <==> b[0].start + k * SECOND >= scanFrom
    ensures k < Last(b, timeout) <==> k < |b| && b[0].start + (k + 1) * SECOND <= timeout
  {
  }

  // ----- counts of requests

  /** Whether a request counts for a component: completed and on time to its first token, to its
      end, or both; or not an error. */
  ghost predicate Serves(c: Component, slo: SLO, r: Request) {
    match c
    case Goodput => r.outcome.Completed? && r.firstToken - r.intended <= slo.ttft && r.done - r.intended <= slo.e2e
    case TTFTMet => r.outcome.Completed? && r.firstToken - r.intended <= slo.ttft
    case E2EMet => r.outcome.Completed? && r.done - r.intended <= slo.e2e
    case NonError => !r.outcome.Errored?
  }

  ghost function Served(c: Component, slo: SLO): Request -> bool { (r: Request) => Serves(c, slo, r) }

  lemma {:induction false} CountSame(requests: seq<Request>, from: int, until: int, p: Request -> bool, q: Request -> bool)
    requires forall r :: p(r) == q(r)
    ensures CountIn(requests, from, until, p) == CountIn(requests, from, until, q)
  {
    if requests != [] {
      CountSame(requests[..|requests| - 1], from, until, p, q);
    }
  }

  lemma {:induction false} CountSplit(requests: seq<Request>, from: int, mid: int, until: int, p: Request -> bool)
    requires from <= mid <= until
    ensures CountIn(requests, from, until, p) == CountIn(requests, from, mid, p) + CountIn(requests, mid, until, p)
  {
    if requests != [] {
      CountSplit(requests[..|requests| - 1], from, mid, until, p);
    }
  }

  lemma {:induction false} CountNone(requests: seq<Request>, from: int, until: int, p: Request -> bool)
    requires until <= from
    ensures CountIn(requests, from, until, p) == 0
  {
    if requests != [] {
      CountNone(requests[..|requests| - 1], from, until, p);
    }
  }

  lemma {:induction false} CountNot(requests: seq<Request>, from: int, until: int, slo: SLO)
    ensures CountIn(requests, from, until, Any()) - CountIn(requests, from, until, Failed())
         == CountIn(requests, from, until, Served(NonError, slo))
  {
    if requests != [] {
      CountNot(requests[..|requests| - 1], from, until, slo);
    }
  }

  /** What BuildSeries builds of some requests. */
  ghost predicate Built(b: seq<Bucket>, slo: SLO, requests: seq<Request>, start: int, end: int) {
    && b != [] && (|b| - 1) * SECOND < end - start <= |b| * SECOND
    && forall k :: 0 <= k < |b| ==> Filled(b[k], slo, requests, start + k * SECOND, Earlier(start + (k + 1) * SECOND, end))
  }

  lemma BucketCounts(b: Bucket, slo: SLO, requests: seq<Request>, from: int, until: int, c: Component)
    requires Filled(b, slo, requests, from, until)
    ensures c.Num(b) == CountIn(requests, from, until, Served(c, slo)) && c.Den(b) == CountIn(requests, from, until, Any())
  {
    match c
    case Goodput => CountSame(requests, from, until, InBoth(slo), Served(c, slo));
    case TTFTMet => CountSame(requests, from, until, InTTFT(slo), Served(c, slo));
    case E2EMet => CountSame(requests, from, until, InE2E(slo), Served(c, slo));
    case NonError => CountNot(requests, from, until, slo);
  }

  /** Where bucket k starts, or the series ends. */
  function Edge(start: int, end: int, k: nat): int { Earlier(start + k * SECOND, end) }

  /** A window's sums are its requests' counts. */
  lemma {:induction false} WindowCounts(b: seq<Bucket>, slo: SLO, requests: seq<Request>, start: int, end: int, c: Component,
                                        i: nat, j: nat)
    requires Built(b, slo, requests, start, end) && i <= j <= |b|
    ensures NumSum(b, c, i, j) == CountIn(requests, start + i * SECOND, Edge(start, end, j), Served(c, slo))
    ensures DenSum(b, c, i, j) == CountIn(requests, start + i * SECOND, Edge(start, end, j), Any())
    decreases j - i
  {
    var from := start + i * SECOND;
    if i == j {
      CountNone(requests, from, Edge(start, end, j), Served(c, slo));
      CountNone(requests, from, Edge(start, end, j), Any());
    } else {
      var mid := start + (j - 1) * SECOND;
      WindowCounts(b, slo, requests, start, end, c, i, j - 1);
      BucketCounts(b[j - 1], slo, requests, mid, Edge(start, end, j), c);
      CountSplit(requests, from, mid, Edge(start, end, j), Served(c, slo));
      CountSplit(requests, from, mid, Edge(start, end, j), Any());
    }
  }

  // ----- the verdict, on requests

  /** What a detection is asked: the requests of [start, end), the share of them that is the
      baseline, and the settings. */
  datatype Ask = Ask(requests: seq<Request>, slo: SLO, start: int, end: int, c: Component, baseline: real, p: Params)

  /** The requests intended in [from, until) are some, and enough of them count: the entry
      percentage of the baseline. */
  ghost predicate Enough(q: Ask, from: int, until: int) {
    Share(CountIn(q.requests, from, until, Served(q.c, q.slo)), CountIn(q.requests, from, until, Any()), q.baseline, q.p.entryPct)
  }

  /** Of all requests, if any, good are at least a percentage of the baseline's share. */
  ghost predicate Share(good: int, all: nat, baseline: real, pct: nat) {
    all > 0 && 100.0 * good as real >= baseline * pct as real * all as real
  }

  /** From t on, every window that starts within the hold is within the series and has enough. */
  ghost predicate Sustained(q: Ask, seconds: nat, t: int) {
    forall k :: 0 <= k <= q.p.hold ==> WindowFrom(q, seconds, t + k * SECOND)
  }

  ghost predicate WindowFrom(q: Ask, seconds: nat, t: int) {
    t + q.p.window * SECOND <= q.start + seconds * SECOND
    && Enough(q, t, Earlier(t + q.p.window * SECOND, q.end))
  }

  /** Second i of the series, starting no sooner than the scan and ending by the timeout, sees its hold through. */
  ghost predicate Recovery(q: Ask, seconds: nat, scanFrom: int, timeout: int, i: nat) {
    && i < seconds && q.start + i * SECOND >= scanFrom && q.start + (i + 1) * SECOND <= timeout
    && Sustained(q, seconds, q.start + i * SECOND)
  }

  lemma ShareExactly(num: int, den: nat, baseline: real, pct: nat)
    ensures den > 0 && Ratio(num, den) >= Bar(baseline, pct) <==> Share(num, den, baseline, pct)
  {
    if den > 0 {
      ShareReal(num as real, den as real, baseline * pct as real);
    }
  }

  lemma ShareReal(n: real, d: real, x: real)
    requires d > 0.0
    ensures n / d >= x / 100.0 <==> 100.0 * n >= x * d
  {
    RatioAtLeast(n, d, x / 100.0);
    assert x / 100.0 * d == x * d / 100.0;
  }

  lemma Scaled(a: real, b: real, d: real)
    requires a >= b && d > 0.0
    ensures a * d >= b * d
  {
    assert (a - b) * d >= 0.0;
  }

  lemma ScaledStrictly(a: real, b: real, d: real)
    requires a < b && d > 0.0
    ensures a * d < b * d
  {
    assert (b - a) * d > 0.0;
  }

  lemma MeetsExactly(s: Scan, baseline: real, pct: nat, k: nat)
    requires s.bar == Bar(baseline, pct) && k <= |s.b|
    ensures s.Meets(k, s.bar) <==> Share(s.Num(k), s.Den(k), baseline, pct)
  {
    ShareExactly(s.Num(k), s.Den(k), baseline, pct);
  }

  /** A window is good exactly when its requests are enough. */
  lemma GoodExactly(q: Ask, b: seq<Bucket>, k: nat)
    requires Built(b, q.slo, q.requests, q.start, q.end)
    ensures ScanOf(b, q.c, q.baseline, q.p).Good(k) <==> WindowFrom(q, |b|, q.start + k * SECOND)
  {
    if k + q.p.window <= |b| {
      WindowCounts(b, q.slo, q.requests, q.start, q.end, q.c, k, k + q.p.window);
      MeetsExactly(ScanOf(b, q.c, q.baseline, q.p), q.baseline, q.p.entryPct, k);
      assert q.start + (k + q.p.window) * SECOND == q.start + k * SECOND + q.p.window * SECOND;
    }
  }

  lemma HeldExactly(q: Ask, b: seq<Bucket>, i: nat)
    requires Built(b, q.slo, q.requests, q.start, q.end)
    ensures ScanOf(b, q.c, q.baseline, q.p).Held(i) <==> Sustained(q, |b|, q.start + i * SECOND)
  {
    var s := ScanOf(b, q.c, q.baseline, q.p);
    forall k: nat
      ensures s.Good(i + k) <==> WindowFrom(q, |b|, q.start + i * SECOND + k * SECOND)
    {
      GoodExactly(q, b, i + k);
      assert q.start + (i + k) * SECOND == q.start + i * SECOND + k * SECOND;
    }
    if s.Held(i) {
      forall k | 0 <= k <= q.p.hold
        ensures WindowFrom(q, |b|, q.start + i * SECOND + k * SECOND)
      {
        assert s.Good(i + k);
      }
    }
    if Sustained(q, |b|, q.start + i * SECOND) {
      forall j | i <= j <= i + q.p.hold
        ensures s.Good(j)
      {
        assert WindowFrom(q, |b|, q.start + i * SECOND + (j - i) * SECOND);
        assert s.Good(i + (j - i));
      }
    }
  }

  /** The verdict, on requests and times alone: recovery is reported exactly when some second
      from the scan's start to the timeout sees its hold through, and at the earliest. */
  lemma VerdictExactly(d: Detection, q: Ask, b: seq<Bucket>, fire: int, scanFrom: int, timeout: int)
    requires Built(b, q.slo, q.requests, q.start, q.end) && q.baseline > 0.0
    requires Reports(d, b, q.c, q.baseline, fire, scanFrom, timeout, q.p)
    ensures d.recoveredAt.None? <==> forall i: nat :: !Recovery(q, |b|, scanFrom, timeout, i)
    ensures d.recoveredAt.Some? ==> exists i: nat :: Earliest(q, |b|, scanFrom, timeout, i) && RecoversAt(d, q, fire, i)
  {
    var s, first, last := ScanOf(b, q.c, q.baseline, q.p), First(b, scanFrom), Last(b, timeout);
    forall i: nat
      ensures Recovery(q, |b|, scanFrom, timeout, i) <==> first <= i < last && s.Held(i)
    {
      RecoveryExactly(q, b, scanFrom, timeout, i);
    }
    if d.recoveredAt.Some? {
      var i: nat :| ReportsAt(d, s, first, last, fire, Bar(q.baseline, q.p.exitPct), i);
      RecoveredIs(d, q, b, fire, i);
      assert Earliest(q, |b|, scanFrom, timeout, i);
    }
  }

  ghost predicate Earliest(q: Ask, seconds: nat, scanFrom: int, timeout: int, i: nat) {
    Recovery(q, seconds, scanFrom, timeout, i) && forall j: nat :: j < i ==> !Recovery(q, seconds, scanFrom, timeout, j)
  }

  /** Recovery at the start of second i, its time counted from the fire. */
  ghost predicate RecoversAt(d: Detection, q: Ask, fire: int, i: nat) {
    d.recoveredAt == Some(q.start + i * SECOND) && d.ttr == Some((q.start + i * SECOND - fire) as real / 1_000_000_000.0)
  }

  lemma RecoveredIs(d: Detection, q: Ask, b: seq<Bucket>, fire: int, i: nat)
    requires Built(b, q.slo, q.requests, q.start, q.end) && i < |b|
    requires d.recoveredAt == Some(b[i].start) && d.ttr == Some((b[i].start - fire) as real / SECOND as real)
    ensures RecoversAt(d, q, fire, i)
  {
  }

  lemma RecoveryExactly(q: Ask, b: seq<Bucket>, scanFrom: int, timeout: int, i: nat)
    requires Built(b, q.slo, q.requests, q.start, q.end)
    ensures Recovery(q, |b|, scanFrom, timeout, i)
       <==> First(b, scanFrom) <= i < Last(b, timeout) && ScanOf(b, q.c, q.baseline, q.p).Held(i)
  {
    ScanExactly(b, scanFrom, timeout, i);
    HeldExactly(q, b, i);
  }

  // ----- the cut window, the guard, the heal and the gaps, in counts

  /** The last windows, cut by the series' end: unobserved where nothing of one was seen, or where
      it meets the bar so far, or would with good traffic at the same load for the rest. */
  lemma CutExactly(s: Scan, k: nat)
    requires k <= |s.b|
    ensures s.Unobserved(k) <==> Liftable(s.End(k) - k, s.window, s.Num(k), s.Den(k), s.bar)
  {
    var seen := s.End(k) - k;
    if s.Den(k) > 0 && 0 < seen < s.window {
      CutCase(s, k, seen, s.Num(k), s.Den(k));
    }
  }

  lemma CutCase(s: Scan, k: nat, seen: nat, num: int, den: nat)
    requires k <= |s.b| && seen == s.End(k) - k && num == s.Num(k) && den == s.Den(k) && den > 0 && 0 < seen < s.window
    ensures s.Unobserved(k) <==> num as real >= s.bar * den as real || Lifts(num as real, den as real, seen as real, s.window as real, s.bar)
  {
    var m := MeanLoad(den, seen, s.window);
    CutIs(s, k, seen, num, den, m);
    RatioAtLeast(num as real, den as real, s.bar);
    LoadIs(den, seen, s.window);
    LiftAtLeast(num as real, den as real, seen as real, s.window as real, s.bar, m);
  }

  lemma CutIs(s: Scan, k: nat, seen: nat, num: int, den: nat, m: real)
    requires k <= |s.b| && seen == s.End(k) - k && num == s.Num(k) && den == s.Den(k) && den > 0 && 0 < seen < s.window
    requires m == MeanLoad(den, seen, s.window)
    ensures s.Unobserved(k) <==> Reaches(num as real, den as real, s.bar) || Reaches(num as real + m, den as real + m, s.bar)
  {
  }

  ghost predicate Reaches(n: real, d: real, bar: real)
    requires d > 0.0
  {
    n / d >= bar
  }

  lemma LoadIs(den: nat, seen: nat, window: nat)
    requires 0 < seen <= window
    ensures MeanLoad(den, seen, window) * seen as real == (window as real - seen as real) * den as real
  {
    DivBack((window - seen) as real * den as real, seen as real);
  }

  ghost predicate Liftable(seen: nat, window: nat, num: int, den: nat, bar: real) {
    seen == 0
    || (seen < window && den > 0
        && (num as real >= bar * den as real
            || Lifts(num as real, den as real, seen as real, window as real, bar)))
  }

  /** With good traffic at the seen load for the rest of the window, the window meets the bar. */
  ghost predicate Lifts(num: real, den: real, seen: real, window: real, bar: real) {
    seen * num + (window - seen) * den >= bar * (window * den)
  }

  lemma RatioAtLeast(n: real, d: real, bar: real)
    requires d > 0.0
    ensures n / d >= bar <==> n >= bar * d
  {
    DivBack(n, d);
    if n / d >= bar {
      Scaled(n / d, bar, d);
    } else {
      ScaledStrictly(n / d, bar, d);
    }
  }

  lemma LiftAtLeast(n: real, d: real, seen: real, window: real, bar: real, m: real)
    requires d > 0.0 && 0.0 < seen < window && m * seen == (window - seen) * d && m >= 0.0
    ensures (n + m) / (d + m) >= bar <==> Lifts(n, d, seen, window, bar)
  {
    RatioAtLeast(n + m, d + m, bar);
    LiftSides(n, d, seen, window, bar, m);
    if n + m >= bar * (d + m) {
      Scaled(n + m, bar * (d + m), seen);
    } else {
      ScaledStrictly(n + m, bar * (d + m), seen);
    }
  }

  lemma LiftSides(n: real, d: real, seen: real, window: real, bar: real, m: real)
    requires m * seen == (window - seen) * d
    ensures (n + m) * seen == seen * n + (window - seen) * d
    ensures bar * (d + m) * seen == bar * (window * d)
  {
    assert (d + m) * seen == d * seen + m * seen == window * d;
    assert bar * (d + m) * seen == bar * ((d + m) * seen);
  }

  /** A level before the fault is of exactly the buckets from the warm-up's end that end by one
      client timeout before the fire, or by the warm-up's end. */
  lemma GuardExactly(x: Input, k: nat)
    requires Contiguous(x.b) && k < |x.b|
    ensures x.b[k].start < x.BaselineEnd()
       <==> x.b[k].start + SECOND <= x.warmupEnd || x.b[k].start + SECOND + x.clientTimeout * SECOND <= x.fire
  {
    assert x.b[k].start == x.b[0].start + k * SECOND;
  }

  lemma {:induction false} SumOver(b: seq<Bucket>, c: Component, from: int, until: int, i: nat, j: nat)
    requires i <= j <= |b| && forall k :: 0 <= k < |b| ==> (from <= b[k].start < until <==> i <= k < j)
    ensures NumOver(b, c, from, until) == NumSum(b, c, i, j) && DenOver(b, c, from, until) == DenSum(b, c, i, j)
    decreases |b|
  {
    if b != [] {
      var before, n := b[..|b| - 1], |b| - 1;
      if j == |b| && i < j {
        SumOver(before, c, from, until, i, j - 1);
        SumsExtend(before, [b[n]], c, i, j - 1);
        assert before + [b[n]] == b;
      } else if i == j {
        SumOver(before, c, from, until, 0, 0);
      } else {
        SumOver(before, c, from, until, i, j);
        SumsExtend(before, [b[n]], c, i, j);
        assert before + [b[n]] == b;
      }
    }
  }

  /** And is the share that counts of the requests intended there. */
  lemma LevelExactly(x: Input, slo: SLO, requests: seq<Request>, start: int, end: int, c: Component, i: nat, j: nat)
    requires Built(x.b, slo, requests, start, end) && i <= j <= |x.b|
    requires forall k :: 0 <= k < |x.b| ==> (x.warmupEnd <= x.b[k].start < x.BaselineEnd() <==> i <= k < j)
    ensures var from, until := start + i * SECOND, Edge(start, end, j);
      LevelOf(x.Level(c), CountIn(requests, from, until, Served(c, slo)), CountIn(requests, from, until, Any()))
  {
    SumOver(x.b, c, x.warmupEnd, x.BaselineEnd(), i, j);
    WindowCounts(x.b, slo, requests, start, end, c, i, j);
    BaselineIs(x.b, c, x.warmupEnd, x.BaselineEnd());
  }

  ghost predicate LevelOf(level: real, good: int, all: nat) {
    if all == 0 then level == 0.0 else level * all as real == good as real
  }

  lemma BaselineIs(b: seq<Bucket>, c: Component, from: int, until: int)
    ensures LevelOf(Baseline(b, c, from, until), NumOver(b, c, from, until), DenOver(b, c, from, until))
  {
    LevelIs(Baseline(b, c, from, until), NumOver(b, c, from, until), DenOver(b, c, from, until));
  }

  lemma LevelIs(level: real, num: int, den: nat)
    requires level == if den == 0 then 0.0 else Ratio(num, den)
    ensures LevelOf(level, num, den)
  {
    if den > 0 {
      DivBack(num as real, den as real);
    }
  }

  lemma DivBack(n: real, d: real)
    requires d > 0.0
    ensures n / d * d == n
  {
  }

  /** The heal's detection scans from the heal or the fire, whichever is later. */
  lemma HealExactly(x: Input, t: int)
    requires x.heal.Some?
    ensures x.HealAt().Some? && (t >= x.HealAt().value <==> t >= x.heal.value && t >= x.fire)
  {
  }

  /** A second's gap is the requests it lacks of the baseline's share, as a share of its requests. */
  lemma GapExactly(b: Bucket, c: Component, baseline: real)
    requires b.scheduled > 0
    ensures var short := baseline * b.scheduled as real - c.Num(b) as real;
      Gap(b, c, baseline) * b.scheduled as real == if short > 0.0 then short else 0.0
  {
    RatioAtLeast(c.Num(b) as real, b.scheduled as real, baseline);
    assert c.Num(b) as real / b.scheduled as real * b.scheduled as real == c.Num(b) as real;
  }
}
