// The recovery detector (internal/detect/detect.go): buckets of scheduled traffic,
// and a hysteresis scan over leading windows. Ratios are exact.
module Detect {
  import opened Prelude

  datatype Outcome = Completed | Errored | Censored

  datatype Request = Request(intended: int, outcome: Outcome, firstToken: int, done: int) {
    function TTFT(): int { firstToken - intended }
    function E2E(): int { done - intended }
  }

  /** The service-level objective, in nanoseconds. */
  datatype SLO = SLO(ttft: int, e2e: int)

  /** One second of scheduled traffic, by intended time. */
  datatype Bucket = Bucket(start: int, scheduled: nat, completed: nat, errored: nat, good: nat, goodTTFT: nat, goodE2E: nat)

  // ----- bucketing

  /** Every bucket's start is one second after the one before. */
  ghost predicate Contiguous(b: seq<Bucket>) {
    forall k :: 0 <= k < |b| ==> b[k].start == b[0].start + k * SECOND
  }

  /** How many of the requests intended in [from, to) pass a test. */
  ghost function CountIn(requests: seq<Request>, from: int, to: int, test: Request -> bool): nat {
    if requests == [] then 0 else
    var r := requests[|requests| - 1];
    CountIn(requests[..|requests| - 1], from, to, test) + (if from <= r.intended < to && test(r) then 1 else 0)
  }

  ghost function Any(): Request -> bool { (r: Request) => true }
  ghost function Done(): Request -> bool { (r: Request) => r.outcome.Completed? }
  ghost function Failed(): Request -> bool { (r: Request) => r.outcome.Errored? }
  ghost function InTTFT(slo: SLO): Request -> bool { (r: Request) => r.outcome.Completed? && r.TTFT() <= slo.ttft }
  ghost function InE2E(slo: SLO): Request -> bool { (r: Request) => r.outcome.Completed? && r.E2E() <= slo.e2e }
  ghost function InBoth(slo: SLO): Request -> bool {
    (r: Request) => r.outcome.Completed? && r.TTFT() <= slo.ttft && r.E2E() <= slo.e2e
  }

  /** The bucket at start, filled with the requests of [start, to). */
  ghost predicate Filled(b: Bucket, slo: SLO, requests: seq<Request>, start: int, to: int) {
    && b.start == start
    && b.scheduled == CountIn(requests, start, to, Any())
    && b.completed == CountIn(requests, start, to, Done())
    && b.errored == CountIn(requests, start, to, Failed())
    && b.good == CountIn(requests, start, to, InBoth(slo))
    && b.goodTTFT == CountIn(requests, start, to, InTTFT(slo))
    && b.goodE2E == CountIn(requests, start, to, InE2E(slo))
  }

  function Earlier(a: int, b: int): int { if a < b then a else b }

  /** One request added to its bucket. */
  function Tally(b: Bucket, slo: SLO, r: Request): Bucket {
    var c := b.(scheduled := b.scheduled + 1);
    match r.outcome
    case Completed =>
      var ttftOK, e2eOK := r.TTFT() <= slo.ttft, r.E2E() <= slo.e2e;
      c.(completed := c.completed + 1,
         goodTTFT := c.goodTTFT + (if ttftOK then 1 else 0),
         goodE2E := c.goodE2E + (if e2eOK then 1 else 0),
         good := c.good + (if ttftOK && e2eOK then 1 else 0))
    case Errored => c.(errored := c.errored + 1)
    case Censored => c
  }

  lemma TallyFills(b: Bucket, slo: SLO, requests: seq<Request>, r: Request, start: int, to: int)
    requires Filled(b, slo, requests, start, to)
    ensures Filled(if start <= r.intended < to then Tally(b, slo, r) else b, slo, requests + [r], start, to)
  {
    assert (requests + [r])[..|requests|] == requests;
  }

  /** One bucket a second over [start, end), the last maybe cut short by end; each
      counts exactly the requests intended in it, whatever their order. */
  method BuildSeries(slo: SLO, requests: seq<Request>, start: int, end: int) returns (buckets: seq<Bucket>)
    ensures |buckets| * SECOND >= end - start
    ensures buckets != [] ==> (|buckets| - 1) * SECOND < end - start
    ensures Contiguous(buckets)
    ensures forall k :: 0 <= k < |buckets| ==>
      Filled(buckets[k], slo, requests, start + k * SECOND, Earlier(start + (k + 1) * SECOND, end))
  {
    var n := TruncSeconds(end - start + SECOND - 1);
    if n <= 0 {
      return [];
    }
    var a := new Bucket[n];
    for k := 0 to n
      invariant forall j :: 0 <= j < k ==> a[j] == Bucket(start + j * SECOND, 0, 0, 0, 0, 0, 0)
    {
      a[k] := Bucket(start + k * SECOND, 0, 0, 0, 0, 0, 0);
    }
    assert requests[..0] == [];
    for i := 0 to |requests|
      invariant forall k :: 0 <= k < n ==>
        Filled(a[k], slo, requests[..i], start + k * SECOND, Earlier(start + (k + 1) * SECOND, end))
    {
      var r := requests[i];
      assert requests[..i + 1] == requests[..i] + [r];
      forall k | 0 <= k < n
        ensures var from, to := start + k * SECOND, Earlier(start + (k + 1) * SECOND, end);
          Filled(if from <= r.intended < to then Tally(a[k], slo, r) else a[k], slo, requests[..i + 1], from, to)
      {
        TallyFills(a[k], slo, requests[..i], r, start + k * SECOND, Earlier(start + (k + 1) * SECOND, end));
      }
      if start <= r.intended < end {
        var home := (r.intended - start) / SECOND;
        a[home] := Tally(a[home], slo, r);
      }
    }
    assert requests[..|requests|] == requests;
    return a[..];
  }

  // ----- windows

  /** What a detection counts in a bucket. */
  datatype Component = Goodput | TTFTMet | E2EMet | NonError {
    function Num(b: Bucket): int {
      match this
      case Goodput => b.good
      case TTFTMet => b.goodTTFT
      case E2EMet => b.goodE2E
      case NonError => b.scheduled - b.errored
    }

    function Den(b: Bucket): nat { b.scheduled }
  }

  function NumSum(b: seq<Bucket>, c: Component, from: nat, to: nat): int
    requires from <= to <= |b|
  {
    if from == to then 0 else NumSum(b, c, from, to - 1) + c.Num(b[to - 1])
  }

  function DenSum(b: seq<Bucket>, c: Component, from: nat, to: nat): nat
    requires from <= to <= |b|
  {
    if from == to then 0 else DenSum(b, c, from, to - 1) + c.Den(b[to - 1])
  }

  function Ratio(num: int, den: nat): real
    requires den > 0
  {
    num as real / den as real
  }

  /** The load of the unobserved buckets of a window, at the observed mean. */
  function MeanLoad(den: nat, observed: nat, window: nat): (m: real)
    requires 0 < observed <= window
    ensures m >= 0.0
  {
    MeanLoadNonneg((window - observed) as real, den as real, observed as real);
    (window - observed) as real * den as real / observed as real
  }

  lemma MeanLoadNonneg(w: real, d: real, o: real)
    requires w >= 0.0 && d >= 0.0 && o > 0.0
    ensures w * d / o >= 0.0
  {
    assert w * d >= 0.0;
  }

  /** A series, a component of it, and a window, hold and bar to judge it by. */
  datatype Scan = Scan(b: seq<Bucket>, c: Component, window: nat, hold: nat, bar: real) {
    /** Where the window at k ends within the series. */
    function End(k: nat): nat
      requires k <= |b|
    {
      if k + window <= |b| then k + window else |b|
    }

    function Num(k: nat): int
      requires k <= |b|
    {
      NumSum(b, c, k, End(k))
    }

    function Den(k: nat): nat
      requires k <= |b|
    {
      DenSum(b, c, k, End(k))
    }

    predicate Complete(k: nat) { k + window <= |b| }

    /** The observed part of the window at k meets a bar. */
    predicate Meets(k: nat, at: real) { k <= |b| && Den(k) > 0 && Ratio(Num(k), Den(k)) >= at }

    /** The window at k is complete and meets the bar. */
    predicate Good(k: nat) { Complete(k) && Meets(k, bar) }

    /** The window at k is cut, and its unobserved part could still lift it to the bar. */
    predicate Unobserved(k: nat)
      requires k <= |b|
    {
      var observed := End(k) - k;
      if observed == 0 then true
      else if Meets(k, bar) then observed < window
      else observed < window && Den(k) > 0
           && var m := MeanLoad(Den(k), observed, window);
              (Num(k) as real + m) / (Den(k) as real + m) >= bar
    }

    /** Every window through the hold from i is complete and meets the bar. */
    ghost predicate Held(i: nat) { forall k :: i <= k <= i + hold ==> Good(k) }

    /** Good windows from i run into the end of the series before its hold is over. */
    ghost predicate RunsOut(i: nat) {
      exists j :: i < j <= i + hold && !Complete(j) && (forall k :: i <= k < j ==> Good(k))
    }

    ghost predicate Open(i: nat)
      requires i <= |b|
    {
      Unobserved(i) || RunsOut(i)
    }

    /** i is the first index from first whose hold is seen through. */
    ghost predicate Recovers(first: nat, last: int, i: nat) {
      first <= i < last && Held(i) && forall k :: first <= k < i ==> !Held(k)
    }

    /** No index of [first, last) is held. */
    ghost predicate NoneHeld(first: nat, last: int) { forall k :: first <= k < last ==> !Held(k) }

    ghost predicate SomeOpen(first: nat, last: int)
      requires last <= |b|
    {
      exists k :: first <= k < last && Open(k)
    }

    /** A run of good windows starts at k. */
    predicate Starts(first: nat, k: nat) { Good(k) && (k <= first || !Good(k - 1)) }

    /** How many runs of good windows start in [first, to). */
    ghost function Runs(first: nat, end: int): nat
      decreases end
    {
      if end <= first then 0 else Runs(first, end - 1) + (if Starts(first, end - 1) then 1 else 0)
    }

    /** Where a scan from first has come to i: nothing before it is held or open,
        and no run of good windows spans it. */
    ghost predicate Past(first: nat, last: int, i: nat) {
      && last <= |b|
      && (forall k :: first <= k < i && k < last ==> !Held(k) && !Open(k))
      && (i > first ==> !Good(i - 1))
      && (forall k :: first <= k < i && last <= k ==> !Starts(first, k))
    }

    /** No index after an open one is held: the series ends before its hold does. */
    lemma OpenIsLast(i: nat)
      requires i < |b| && Open(i)
      ensures forall k: nat :: i <= k ==> !Held(k)
    {
      forall k: nat | i <= k
        ensures !Held(k)
      {
        if RunsOut(i) {
          var j :| i < j <= i + hold && !Complete(j);
          assert !Good(if k < j then j else k);
        } else {
          assert !Good(k);
        }
      }
    }

    /** A window is judged without regard to the hold. */
    lemma SameWindow(i: nat)
      requires i <= |b|
      ensures var s := Scan(b, c, window, 0, bar);
        (s.Good(i) <==> Good(i)) && (s.Unobserved(i) <==> Unobserved(i))
    {
    }

    lemma StepKeeps(first: nat, last: int, i: nat)
      requires first <= i < last && Past(first, last, i) && !Good(i) && !Unobserved(i)
      ensures Past(first, last, i + 1) && Runs(first, i + 1) == Runs(first, i)
    {
    }

    /** No candidate of the skipped windows could have held: each one's hold meets the bad window j. */
    lemma SkipKeeps(first: nat, last: int, i: nat, j: nat)
      requires first <= i < last && i < j <= i + hold && Past(first, last, i)
      requires Complete(j) && !Good(j) && forall k :: i <= k < j ==> Good(k)
      ensures Past(first, last, j + 1) && Runs(first, j + 1) == Runs(first, i) + 1
    {
      assert Good(i) && window > 0;
      forall k | i <= k <= j && k < last
        ensures !Held(k) && !Open(k)
      {
        assert k <= j <= k + hold && !Unobserved(k);
        assert forall l :: k < l && !Complete(l) ==> k <= j < l;
      }
      RunsFlat(first, i + 1, j + 1);
    }

    /** No run starts in [from, to). */
    lemma {:induction false} RunsFlat(first: nat, from: nat, end: nat)
      requires first <= from <= end && forall k :: from <= k < end ==> !Starts(first, k)
      ensures Runs(first, end) == Runs(first, from)
      decreases end
    {
      if from < end {
        RunsFlat(first, from, end - 1);
      }
    }

    lemma PastEnd(first: nat, last: int, i: nat)
      requires last <= i && first <= i && Past(first, last, i)
      ensures NoneHeld(first, last) && !SomeOpen(first, last) && Runs(first, last) == Runs(first, i)
    {
      if first <= last {
        RunsFlat(first, last, i);
      } else {
        RunsFlat(first, first, i);
      }
    }

    /** The window at k falls below the exit bar. */
    predicate Falls(k: nat, exit: real) { k <= |b| && Den(k) > 0 && Ratio(Num(k), Den(k)) < exit }

    /** Before k the windows from from have fallen below the exit bar and not climbed back to the entry bar. */
    ghost predicate Fallen(from: nat, k: nat, exit: real)
      decreases k
    {
      k > from && if Fallen(from, k - 1, exit) then !Meets(k - 1, bar) else Falls(k - 1, exit)
    }

    /** How many episodes of falling below exit, ended by climbing back to the bar, begin in [from, to). */
    ghost function Episodes(from: nat, end: int, exit: real): nat
      decreases end
    {
      if end <= from then 0
      else Episodes(from, end - 1, exit) + (if Falls(end - 1, exit) && !Fallen(from, end - 1, exit) then 1 else 0)
    }

    /** Some window from from fell below the exit bar, and none since met the entry bar. */
    ghost predicate FellAndStayed(from: nat, k: nat, exit: real) {
      exists j :: from <= j < k && Falls(j, exit) && (forall l :: j < l < k ==> !Meets(l, bar))
    }

    /** Under an exit bar no higher than the entry bar, an episode runs from a fall to the next climb. */
    lemma {:induction false} FallenMeans(from: nat, k: nat, exit: real)
      requires exit <= bar
      ensures Fallen(from, k, exit) <==> FellAndStayed(from, k, exit)
      decreases k
    {
      if k > from {
        FallenMeans(from, k - 1, exit);
        if FellAndStayed(from, k - 1, exit) && !Meets(k - 1, bar) {
          var j :| from <= j < k - 1 && Falls(j, exit) && (forall l :: j < l < k - 1 ==> !Meets(l, bar));
          assert forall l :: j < l < k ==> !Meets(l, bar);
        }
      }
    }
  }

  // ----- the detector

  datatype Params = Params(window: nat, entryPct: nat, exitPct: nat, hold: nat)

  datatype Detection = Detection(ttr: Option<real>, recoveredAt: Option<int>, notRecovered: bool, holdUnobserved: bool,
                                 canceled: nat, reDegradations: nat)

  const BLANK := Detection(None, None, false, false, 0, 0)

  function Bar(baseline: real, pct: nat): real { baseline * pct as real / 100.0 }

  function ScanOf(b: seq<Bucket>, c: Component, baseline: real, p: Params): Scan {
    Scan(b, c, p.window, p.hold, Bar(baseline, p.entryPct))
  }

  /** The first bucket wholly after scanFrom. */
  function First(b: seq<Bucket>, scanFrom: int): nat
    requires b != []
  {
    var i := TruncSeconds(scanFrom - b[0].start + SECOND - 1);
    if i < 0 then 0 else i
  }

  /** Windows start before the timeout and inside the series. */
  function Last(b: seq<Bucket>, timeout: int): (i: int)
    requires b != []
    ensures i <= |b|
  {
    var i := TruncSeconds(timeout - b[0].start);
    if i > |b| then |b| else i
  }

  /** What a detection reports of a series: the first held index, or else whether
      some index is open, or else non-recovery; exactly one of the three. */
  ghost predicate Reports(d: Detection, b: seq<Bucket>, c: Component, baseline: real, fire: int, scanFrom: int,
                          timeout: int, p: Params)
  {
    if |b| == 0 || baseline <= 0.0 then d == BLANK.(notRecovered := true)
    else Tells(d, ScanOf(b, c, baseline, p), First(b, scanFrom), Last(b, timeout), fire, Bar(baseline, p.exitPct))
  }

  ghost predicate Tells(d: Detection, s: Scan, first: nat, last: int, fire: int, exit: real)
    requires last <= |s.b|
  {
    && ((d.recoveredAt.Some? || d.notRecovered || d.holdUnobserved) && !(d.notRecovered && d.holdUnobserved))
    && (d.recoveredAt.Some? ==> !d.notRecovered && !d.holdUnobserved)
    && (d.recoveredAt.None? <==> s.NoneHeld(first, last))
    && (d.holdUnobserved <==> s.NoneHeld(first, last) && s.SomeOpen(first, last))
    && (d.recoveredAt.None? ==> d.ttr.None? && d.reDegradations == 0)
    && (d.recoveredAt.Some? ==> exists i: nat :: ReportsAt(d, s, first, last, fire, exit, i))
    && (d.notRecovered ==> d.canceled == s.Runs(first, last))
    && (d.holdUnobserved ==> exists i: nat :: OpensAt(d, s, first, last, i))
  }

  ghost predicate ReportsAt(d: Detection, s: Scan, first: nat, last: int, fire: int, exit: real, i: nat) {
    && i < |s.b| && s.Recovers(first, last, i)
    && d.recoveredAt == Some(s.b[i].start)
    && d.ttr == Some((s.b[i].start - fire) as real / SECOND as real)
    && d.canceled == s.Runs(first, i)
    && d.reDegradations == s.Episodes(i + s.hold + 1, last, exit)
  }

  /** The scan stops at i, the first open index. */
  ghost predicate OpensAt(d: Detection, s: Scan, first: nat, last: int, i: nat) {
    && first <= i < last <= |s.b| && s.Open(i) && (forall k :: first <= k < i ==> !s.Open(k))
    && d.canceled == s.Runs(first, i)
  }

  method WindowSums(b: seq<Bucket>, from: nat, window: nat, c: Component) returns (num: int, den: nat, observed: nat)
    requires from <= |b|
    ensures var end := if from + window <= |b| then from + window else |b|;
      num == NumSum(b, c, from, end) && den == DenSum(b, c, from, end) && observed == end - from
  {
    num, den, observed := 0, 0, 0;
    var i := from;
    while i < from + window && i < |b|
      invariant from <= i <= |b| && i <= from + window && observed == i - from
      invariant num == NumSum(b, c, from, i) && den == DenSum(b, c, from, i)
    {
      num, den, observed := num + c.Num(b[i]), den + c.Den(b[i]), observed + 1;
      i := i + 1;
    }
  }

  method WindowRatio(b: seq<Bucket>, from: nat, window: nat, c: Component) returns (r: Option<real>)
    requires from <= |b|
    ensures var s := Scan(b, c, window, 0, 0.0);
      r == if s.Den(from) == 0 then None else Some(Ratio(s.Num(from), s.Den(from)))
  {
    var num, den, observed := WindowSums(b, from, window, c);
    r := if den == 0 then None else Some(Ratio(num, den));
  }

  /** Judges the window at from: good, or cut where what is unobserved could still lift it. */
  method EntryVerdict(b: seq<Bucket>, from: nat, window: nat, c: Component, bar: real)
    returns (candidate: bool, unobserved: bool)
    requires from <= |b|
    ensures var s := Scan(b, c, window, 0, bar);
      (!unobserved ==> (candidate <==> s.Good(from))) && (unobserved <==> s.Unobserved(from))
  {
    var num, den, observed := WindowSums(b, from, window, c);
    if observed == 0 {
      return false, true;
    }
    if den > 0 && Ratio(num, den) >= bar {
      return observed == window, observed < window;
    }
    if observed == window || den == 0 {
      return false, false;
    }
    var m := MeanLoad(den, observed, window);
    return false, (num as real + m) / (den as real + m) >= bar;
  }

  /** Falls below the exit bar after recovery, a new one counted only once the bar was met again. */
  method ReDegradations(ghost s: Scan, b: seq<Bucket>, c: Component, window: nat, bar: real, from: nat, last: int, exit: real)
    returns (n: nat)
    requires s.b == b && s.c == c && s.window == window && s.bar == bar && last <= |b|
    ensures n == s.Episodes(from, last, exit)
  {
    n := 0;
    var below, j := false, from;
    while j < last
      invariant from <= j && (from <= last ==> j <= last) && (from > last ==> j == from)
      invariant n == s.Episodes(from, j, exit) && (below <==> s.Fallen(from, j, exit))
    {
      var w := WindowRatio(b, j, window, c);
      if w.Some? {
        if w.value < exit && !below {
          n := n + 1;
          below := true;
        } else if w.value >= bar {
          below := false;
        }
      }
      j := j + 1;
    }
  }

  /** How a candidate's hold ends. */
  datatype Hold = Kept | CutShort | Killed(at: nat)

  /** Every window starting within hold of the candidate at i must stay at or above the bar. */
  method HoldFrom(b: seq<Bucket>, i: nat, c: Component, window: nat, hold: nat, bar: real) returns (h: Hold)
    requires i < |b| && Scan(b, c, window, hold, bar).Good(i)
    ensures var s := Scan(b, c, window, hold, bar);
      match h
      case Kept => s.Held(i)
      case CutShort => s.RunsOut(i)
      case Killed(j) => i < j <= i + hold && s.Complete(j) && !s.Good(j) && forall k :: i <= k < j ==> s.Good(k)
  {
    ghost var s := Scan(b, c, window, hold, bar);
    var j := i + 1;
    while j <= i + hold
      invariant i < j <= i + hold + 1 && forall k :: i <= k < j ==> s.Good(k)
    {
      if j + window > |b| {
        assert !s.Complete(j) && i < j <= i + s.hold;
        return CutShort;
      }
      var w := WindowRatio(b, j, window, c);
      if w.None? || w.value < bar {
        return Killed(j);
      }
      j := j + 1;
    }
    return Kept;
  }

  /** The hysteresis scan: a candidate killed during its hold is skipped past the window that killed it. */
  method DetectFrom(b: seq<Bucket>, c: Component, baseline: real, fire: int, scanFrom: int, timeout: int, p: Params)
    returns (d: Detection)
    ensures Reports(d, b, c, baseline, fire, scanFrom, timeout, p)
  {
    d := BLANK;
    if b == [] || baseline <= 0.0 {
      return d.(notRecovered := true);
    }
    var bar, exit := Bar(baseline, p.entryPct), Bar(baseline, p.exitPct);
    var first, last := First(b, scanFrom), Last(b, timeout);
    ghost var s := ScanOf(b, c, baseline, p);
    var i := first;
    while i < last
      invariant first <= i && d == BLANK.(canceled := d.canceled)
      invariant s.Past(first, last, i) && d.canceled == s.Runs(first, i)
      decreases last - i
    {
      var candidate, unobserved := EntryVerdict(b, i, p.window, c, bar);
      s.SameWindow(i);
      if unobserved {
        d := d.(holdUnobserved := true);
        OpenTells(d, s, first, last, fire, exit, i);
        return d;
      }
      if !candidate {
        s.StepKeeps(first, last, i);
        i := i + 1;
        continue;
      }
      var h := HoldFrom(b, i, c, p.window, p.hold, bar);
      match h
      case Kept =>
        var re := ReDegradations(s, b, c, p.window, bar, i + p.hold + 1, last, exit);
        d := d.(recoveredAt := Some(b[i].start), ttr := Some((b[i].start - fire) as real / SECOND as real),
                reDegradations := re);
        HeldTells(d, s, first, last, fire, exit, i);
        return d;
      case CutShort =>
        d := d.(holdUnobserved := true);
        OpenTells(d, s, first, last, fire, exit, i);
        return d;
      case Killed(j) =>
        d := d.(canceled := d.canceled + 1);
        s.SkipKeeps(first, last, i, j);
        i := j + 1;
    }
    d := d.(notRecovered := true);
    NoneTells(d, s, first, last, fire, exit, i);
  }

  lemma HeldTells(d: Detection, s: Scan, first: nat, last: int, fire: int, exit: real, i: nat)
    requires first <= i < last && s.Past(first, last, i) && s.Held(i)
    requires d == BLANK.(recoveredAt := Some(s.b[i].start), ttr := Some((s.b[i].start - fire) as real / SECOND as real),
                         canceled := s.Runs(first, i), reDegradations := s.Episodes(i + s.hold + 1, last, exit))
    ensures Tells(d, s, first, last, fire, exit)
  {
    assert ReportsAt(d, s, first, last, fire, exit, i);
  }

  lemma OpenTells(d: Detection, s: Scan, first: nat, last: int, fire: int, exit: real, i: nat)
    requires first <= i < last && s.Past(first, last, i) && s.Open(i)
    requires d == BLANK.(holdUnobserved := true, canceled := s.Runs(first, i))
    ensures Tells(d, s, first, last, fire, exit)
  {
    s.OpenIsLast(i);
    assert OpensAt(d, s, first, last, i);
  }

  lemma NoneTells(d: Detection, s: Scan, first: nat, last: int, fire: int, exit: real, i: nat)
    requires first <= i && last <= i && s.Past(first, last, i)
    requires d == BLANK.(notRecovered := true, canceled := s.Runs(first, i))
    ensures Tells(d, s, first, last, fire, exit)
  {
    s.PastEnd(first, last, i);
  }

  // ----- what the reports mean

  /** A scan's verdict. */
  datatype Verdict = Recovered(i: nat) | NotRecovered | HoldUnobserved

  /** The naive search: try every index in turn, each from scratch. */
  ghost function Naive(s: Scan, i: nat, last: int): Verdict
    requires last <= |s.b|
    decreases last - i
  {
    if i >= last then NotRecovered
    else if s.Held(i) then Recovered(i)
    else if s.Open(i) then HoldUnobserved
    else Naive(s, i + 1, last)
  }

  /** Nothing of [first, i) is held or open. */
  ghost predicate Clear(s: Scan, first: nat, i: int)
    requires i <= |s.b|
  {
    forall k: nat :: first <= k < i ==> !s.Held(k) && !s.Open(k)
  }

  /** What a verdict on the indices of [first, last) says. */
  ghost predicate Finds(s: Scan, first: nat, last: int, v: Verdict)
    requires last <= |s.b|
  {
    match v
    case Recovered(k) => s.Recovers(first, last, k)
    case NotRecovered => Clear(s, first, last)
    case HoldUnobserved => s.NoneHeld(first, last) && s.SomeOpen(first, last)
  }

  lemma {:induction false} NaiveIs(s: Scan, first: nat, i: nat, last: int)
    requires first <= i && last <= |s.b| && Clear(s, first, if i < last then i else last)
    ensures Finds(s, first, last, Naive(s, i, last))
    decreases last - i
  {
    if i < last {
      if s.Held(i) || s.Open(i) {
        EndsSearch(s, first, i, last);
      } else {
        ClearMore(s, first, i);
        NaiveIs(s, first, i + 1, last);
      }
    }
  }

  lemma ClearMore(s: Scan, first: nat, i: nat)
    requires i < |s.b| && Clear(s, first, i) && !s.Held(i) && !s.Open(i)
    ensures Clear(s, first, i + 1)
  {
  }

  lemma EndsSearch(s: Scan, first: nat, i: nat, last: int)
    requires first <= i < last <= |s.b| && Clear(s, first, i) && (s.Held(i) || s.Open(i))
    ensures Finds(s, first, last, if s.Held(i) then Recovered(i) else HoldUnobserved)
  {
    if !s.Held(i) {
      s.OpenIsLast(i);
    }
  }

  /** The skipping scan reports what the naive search finds. */
  lemma ScanIsNaive(d: Detection, b: seq<Bucket>, c: Component, baseline: real, fire: int, scanFrom: int, timeout: int,
                    p: Params)
    requires Reports(d, b, c, baseline, fire, scanFrom, timeout, p) && b != [] && baseline > 0.0
    ensures match Naive(ScanOf(b, c, baseline, p), First(b, scanFrom), Last(b, timeout))
            case Recovered(i) => i < |b| && d.recoveredAt == Some(b[i].start)
            case NotRecovered => d.notRecovered
            case HoldUnobserved => d.holdUnobserved
  {
    var s, first, last := ScanOf(b, c, baseline, p), First(b, scanFrom), Last(b, timeout);
    NaiveIs(s, first, first, last);
    if d.recoveredAt.Some? {
      var i: nat :| ReportsAt(d, s, first, last, fire, Bar(baseline, p.exitPct), i);
    }
  }

  // ----- looser settings

  lemma BarMono(baseline: real, low: nat, high: nat)
    requires baseline >= 0.0 && low <= high
    ensures Bar(baseline, low) <= Bar(baseline, high)
  {
    var l, h := low as real, high as real;
    assert baseline * (h - l) >= 0.0;
  }

  /** t asks no more of a window than s: a lower bar, or a shorter hold. */
  ghost predicate Looser(t: Scan, s: Scan) {
    t.b == s.b && t.c == s.c && t.window == s.window && t.hold <= s.hold && t.bar <= s.bar
  }

  lemma LooserWindow(s: Scan, t: Scan, k: nat)
    requires Looser(t, s)
    ensures s.Good(k) ==> t.Good(k)
    ensures k <= |s.b| && s.Unobserved(k) ==> t.Unobserved(k)
  {
  }

  lemma LooserHeld(s: Scan, t: Scan, i: nat)
    requires Looser(t, s)
    ensures s.Held(i) ==> t.Held(i)
    ensures i <= |s.b| && s.Open(i) ==> t.Held(i) || t.Open(i)
  {
    forall k: nat
      ensures s.Good(k) ==> t.Good(k)
    {
      LooserWindow(s, t, k);
    }
    if i <= |s.b| && s.Open(i) {
      LooserWindow(s, t, i);
      if s.RunsOut(i) {
        var j :| i < j <= i + s.hold && !s.Complete(j) && (forall k :: i <= k < j ==> s.Good(k));
        if j <= i + t.hold {
          assert !t.Complete(j);
          assert t.RunsOut(i);
        }
      }
    }
  }

  /** A lower entry bar, a shorter hold or an earlier scan never worsens the
      verdict: recovery stays, no later; and where the hold was unobserved it is
      never non-recovery. */
  lemma LooserNoWorse(d: Detection, e: Detection, b: seq<Bucket>, c: Component, baseline: real, fire: int,
                      scanFrom: int, earlier: int, timeout: int, p: Params, q: Params)
    requires Reports(d, b, c, baseline, fire, scanFrom, timeout, p)
    requires Reports(e, b, c, baseline, fire, earlier, timeout, q)
    requires earlier <= scanFrom && q.window == p.window && q.hold <= p.hold && q.entryPct <= p.entryPct
    requires Contiguous(b)
    ensures d.recoveredAt.Some? ==> e.recoveredAt.Some? && e.recoveredAt.value <= d.recoveredAt.value
    ensures d.recoveredAt.Some? ==> e.ttr.Some? && d.ttr.Some? && e.ttr.value <= d.ttr.value
    ensures d.holdUnobserved ==> !e.notRecovered
  {
    if b != [] && baseline > 0.0 {
      var s, t, last := ScanOf(b, c, baseline, p), ScanOf(b, c, baseline, q), Last(b, timeout);
      var first, sooner := First(b, scanFrom), First(b, earlier);
      BarMono(baseline, q.entryPct, p.entryPct);
      if d.recoveredAt.Some? {
        var i: nat :| ReportsAt(d, s, first, last, fire, Bar(baseline, p.exitPct), i);
        LooserHeld(s, t, i);
        var j: nat :| ReportsAt(e, t, sooner, last, fire, Bar(baseline, q.exitPct), j);
        assert j <= i;
      } else if d.holdUnobserved {
        var i :| first <= i < last && s.Open(i);
        LooserHeld(s, t, i);
      }
    }
  }

  /** Recovery is never reported before the fire. */
  lemma NeverBeforeTheFire(d: Detection, b: seq<Bucket>, c: Component, baseline: real, fire: int, scanFrom: int,
                           timeout: int, p: Params)
    requires Reports(d, b, c, baseline, fire, scanFrom, timeout, p) && Contiguous(b) && fire <= scanFrom
    ensures d.recoveredAt.Some? ==> scanFrom <= d.recoveredAt.value && d.recoveredAt.value + SECOND <= timeout
    ensures d.recoveredAt.Some? ==> d.ttr.Some? && d.ttr.value >= 0.0
  {
    if d.recoveredAt.Some? {
      var first, last := First(b, scanFrom), Last(b, timeout);
      var i: nat :| ReportsAt(d, ScanOf(b, c, baseline, p), first, last, fire, Bar(baseline, p.exitPct), i);
      assert b[i].start == b[0].start + i * SECOND;
    }
  }

  // ----- more traffic

  lemma {:induction false} SumsExtend(b: seq<Bucket>, more: seq<Bucket>, c: Component, from: nat, end: nat)
    requires from <= end <= |b|
    ensures NumSum(b + more, c, from, end) == NumSum(b, c, from, end)
    ensures DenSum(b + more, c, from, end) == DenSum(b, c, from, end)
    decreases end - from
  {
    if from < end {
      SumsExtend(b, more, c, from, end - 1);
    }
  }

  lemma GoodExtends(s: Scan, more: seq<Bucket>, k: nat)
    requires k + s.window <= |s.b|
    ensures s.(b := s.b + more).Good(k) == s.Good(k)
  {
    SumsExtend(s.b, more, s.c, k, k + s.window);
  }

  lemma HeldExtends(s: Scan, more: seq<Bucket>, k: nat)
    requires k + s.hold + s.window <= |s.b|
    ensures s.(b := s.b + more).Held(k) == s.Held(k)
  {
    forall j: nat | k <= j <= k + s.hold
      ensures s.(b := s.b + more).Good(j) == s.Good(j)
    {
      GoodExtends(s, more, j);
    }
  }

  lemma RecoversExtends(s: Scan, more: seq<Bucket>, first: nat, last: int, later: int, i: nat)
    requires s.Recovers(first, last, i) && last <= later
    ensures s.(b := s.b + more).Recovers(first, later, i)
  {
    assert s.Good(i + s.hold);
    forall k: nat | first <= k <= i
      ensures s.(b := s.b + more).Held(k) == s.Held(k)
    {
      HeldExtends(s, more, k);
    }
  }

  /** A reported recovery keeps its time however the series goes on. */
  lemma RecoveryIsFinal(d: Detection, e: Detection, b: seq<Bucket>, more: seq<Bucket>, c: Component, baseline: real,
                        fire: int, scanFrom: int, timeout: int, p: Params)
    requires Reports(d, b, c, baseline, fire, scanFrom, timeout, p)
    requires Reports(e, b + more, c, baseline, fire, scanFrom, timeout, p)
    ensures d.recoveredAt.Some? ==> e.recoveredAt == d.recoveredAt && e.ttr == d.ttr
  {
    if d.recoveredAt.Some? {
      var all := b + more;
      assert all[0] == b[0];
      var s, first, last := ScanOf(b, c, baseline, p), First(b, scanFrom), Last(b, timeout);
      var longer, exit, later := s.(b := all), Bar(baseline, p.exitPct), Last(all, timeout);
      assert longer == ScanOf(all, c, baseline, p);
      var i: nat :| ReportsAt(d, s, first, last, fire, exit, i);
      RecoversExtends(s, more, first, last, later, i);
      var j: nat :| ReportsAt(e, longer, first, later, fire, exit, j);
      assert j == i;
    }
  }

  // ----- one run's analysis

  /** The values the sensitivity sweep varies; the exit bar stays pinned. */
  datatype Sweep = Sweep(entryPct: seq<nat>, window: seq<nat>, hold: seq<nat>)

  datatype Row = Row(p: Params, pre: Detection, eq: Option<Detection>, heal: Option<Detection>)

  /** What one run's detections start from: the series, where it was measured from, the client's
      timeout in seconds, the goodput before the fault where it is given, the fire, the heal if
      any, and the end of the fault window. */
  datatype Input = Input(b: seq<Bucket>, warmupEnd: int, clientTimeout: int, given: Option<real>, fire: int,
                         heal: Option<int>, timeout: int) {
    /** One client timeout before the fire, but not before the measured traffic. */
    function GuardStart(): int {
      var start := fire - clientTimeout * SECOND;
      if start < warmupEnd then warmupEnd else start
    }

    /** The guard's start moved down to where a bucket starts. */
    function BaselineEnd(): int {
      var origin := if b == [] then 0 else b[0].start;
      origin + TruncSeconds(GuardStart() - origin) * SECOND
    }

    /** A component's level before the fault. */
    function Level(c: Component): real { Baseline(b, c, warmupEnd, BaselineEnd()) }

    function PreFault(): real { if given.Some? then given.value else Level(Goodput) }

    /** A heal before the fire counts as one at the fire. */
    function HealAt(): Option<int> {
      if heal.None? then None else Some(if heal.value < fire then fire else heal.value)
    }
  }

  /** The goodput lost until each recovery. */
  datatype Deficits = Deficits(preFault: real, equilibrium: real, heal: Option<real>)

  datatype Analysis = Analysis(preFault: real, toPreFault: Detection, equilibrium: Option<real>,
                               toEquilibrium: Option<Detection>, healRecovery: Option<Detection>, deficits: Deficits,
                               rows: seq<Row>, components: map<Component, Detection>)

  ghost predicate ReportsFrom(d: Option<Detection>, x: Input, baseline: Option<real>, scanFrom: Option<int>, p: Params) {
    if baseline.None? || scanFrom.None? then d.None?
    else d.Some? && Reports(d.value, x.b, Goodput, baseline.value, x.fire, scanFrom.value, x.timeout, p)
  }

  ghost predicate RowReports(r: Row, x: Input, eq: Option<real>) {
    && Reports(r.pre, x.b, Goodput, x.PreFault(), x.fire, x.fire, x.timeout, r.p)
    && ReportsFrom(r.eq, x, eq, Some(x.fire), r.p)
    && ReportsFrom(r.heal, x, Some(x.PreFault()), x.HealAt(), r.p)
  }

  function NumOver(b: seq<Bucket>, c: Component, from: int, until: int): int {
    if b == [] then 0 else
    var l := b[|b| - 1];
    NumOver(b[..|b| - 1], c, from, until) + (if from <= l.start < until then c.Num(l) else 0)
  }

  function DenOver(b: seq<Bucket>, c: Component, from: int, until: int): nat {
    if b == [] then 0 else
    var l := b[|b| - 1];
    DenOver(b[..|b| - 1], c, from, until) + (if from <= l.start < until then c.Den(l) else 0)
  }

  /** The ratio over the buckets starting in [from, until), zero where nothing was scheduled. */
  function Baseline(b: seq<Bucket>, c: Component, from: int, until: int): real {
    if DenOver(b, c, from, until) == 0 then 0.0 else Ratio(NumOver(b, c, from, until), DenOver(b, c, from, until))
  }

  method BaselineOver(b: seq<Bucket>, c: Component, from: int, until: int) returns (r: real)
    ensures r == Baseline(b, c, from, until)
  {
    var num: int, den: nat := 0, 0;
    for i := 0 to |b|
      invariant num == NumOver(b[..i], c, from, until) && den == DenOver(b[..i], c, from, until)
    {
      assert b[..i + 1][..i] == b[..i];
      if from <= b[i].start < until {
        num, den := num + c.Num(b[i]), den + c.Den(b[i]);
      }
    }
    assert b[..|b|] == b;
    return if den == 0 then 0.0 else Ratio(num, den);
  }

  /** Where the degraded plateau ends: at the recovery, or the timeout. */
  function PlateauEnd(pre: Detection, timeout: int): int {
    if pre.recoveredAt.Some? && pre.recoveredAt.value < timeout then pre.recoveredAt.value else timeout
  }

  /** The equilibrium is estimated from the degraded plateau alone, never from what follows recovery. */
  ghost predicate Estimated(eq: Option<real>, x: Input, pre: Detection, window: nat) {
    var from := x.fire + window * SECOND;
    var until := if pre.recoveredAt.Some? && pre.recoveredAt.value < x.timeout then pre.recoveredAt.value else x.timeout;
    var over := Baseline(x.b, Goodput, from, until);
    eq == if until - from >= window * SECOND && over > 0.0 then Some(over) else None
  }

  /** How far a bucket with traffic falls short of the baseline. */
  function Gap(b: Bucket, c: Component, baseline: real): real {
    if c.Den(b) == 0 || Ratio(c.Num(b), c.Den(b)) >= baseline then 0.0 else baseline - Ratio(c.Num(b), c.Den(b))
  }

  /** The gaps of the buckets starting in [from, until), summed. */
  function Deficit(b: seq<Bucket>, c: Component, baseline: real, from: int, until: int): real {
    if b == [] then 0.0 else
    var l := b[|b| - 1];
    Deficit(b[..|b| - 1], c, baseline, from, until) + (if from <= l.start < until then Gap(l, c, baseline) else 0.0)
  }

  method DeficitOver(b: seq<Bucket>, c: Component, baseline: real, from: int, until: int) returns (total: real)
    ensures total == Deficit(b, c, baseline, from, until)
  {
    total := 0.0;
    for i := 0 to |b|
      invariant total == Deficit(b[..i], c, baseline, from, until)
    {
      assert b[..i + 1][..i] == b[..i];
      if from <= b[i].start < until && c.Den(b[i]) > 0 {
        var gap := baseline - Ratio(c.Num(b[i]), c.Den(b[i]));
        if gap > 0.0 {
          total := total + gap;
        }
      }
    }
    assert b[..|b|] == b;
  }

  /** Where a deficit is summed to: the recovery, or the timeout where there is none. */
  function Until(d: Detection, timeout: int): int { if d.recoveredAt.Some? then d.recoveredAt.value else timeout }

  /** What was lost of a baseline until the recovery to it. */
  ghost function Lost(x: Input, baseline: real, d: Detection): real {
    Deficit(x.b, Goodput, baseline, x.fire, if d.recoveredAt.Some? then d.recoveredAt.value else x.timeout)
  }

  ghost predicate DeficitsOf(f: Deficits, x: Input, a: Analysis) {
    && f.preFault == Lost(x, x.PreFault(), a.toPreFault)
    && f.equilibrium == (if a.equilibrium.Some? && a.toEquilibrium.Some?
                         then Lost(x, a.equilibrium.value, a.toEquilibrium.value) else 0.0)
    && f.heal == (if a.healRecovery.Some? then Some(Lost(x, x.PreFault(), a.healRecovery.value)) else None)
  }

  const COMPONENTS: set<Component> := {TTFTMet, E2EMet, NonError}

  /** Each component is judged against its own level before the fault. */
  ghost predicate ComponentsOf(m: map<Component, Detection>, x: Input, p: Params, which: set<Component>) {
    m.Keys == which && forall c :: c in m ==> Reports(m[c], x.b, c, x.Level(c), x.fire, x.fire, x.timeout, p)
  }

  method RunWith(x: Input, p: Params, sweep: Sweep) returns (a: Analysis)
    ensures a.preFault == x.PreFault() && Reports(a.toPreFault, x.b, Goodput, a.preFault, x.fire, x.fire, x.timeout, p)
    ensures Estimated(a.equilibrium, x, a.toPreFault, p.window)
    ensures ReportsFrom(a.toEquilibrium, x, a.equilibrium, Some(x.fire), p)
    ensures ReportsFrom(a.healRecovery, x, Some(a.preFault), x.HealAt(), p)
    ensures DeficitsOf(a.deficits, x, a) && ComponentsOf(a.components, x, p, {TTFTMet, E2EMet, NonError})
    ensures forall r :: r in a.rows ==> RowReports(r, x, a.equilibrium)
    ensures forall e, w, h :: e in sweep.entryPct && w in sweep.window && h in sweep.hold ==>
      Params(w, e, p.exitPct, h) in Swept(a.rows)
  {
    var before;
    if x.given.Some? {
      before := x.given.value;
    } else {
      before := BaselineOver(x.b, Goodput, x.warmupEnd, x.BaselineEnd());
    }
    var pre := DetectFrom(x.b, Goodput, before, x.fire, x.fire, x.timeout, p);
    var heal := DetectAt(x, Some(before), x.HealAt(), p);
    var from, until := x.fire + p.window * SECOND, PlateauEnd(pre, x.timeout);
    var eq: Option<real> := None;
    if until - from >= p.window * SECOND {
      var over := BaselineOver(x.b, Goodput, from, until);
      eq := if over > 0.0 then Some(over) else None;
    }
    var toEq := DetectAt(x, eq, Some(x.fire), p);
    var lost := DeficitOver(x.b, Goodput, before, x.fire, Until(pre, x.timeout));
    var lostEq := LostOf(x, eq, toEq);
    var lostHeal := LostOf(x, Some(before), heal);
    var rows := SweepRows(x, before, p.exitPct, sweep, eq);
    var components := Components(x, p);
    return Analysis(before, pre, eq, toEq, heal,
                    Deficits(lost, if lostEq.Some? then lostEq.value else 0.0, lostHeal), rows, components);
  }

  method LostOf(x: Input, baseline: Option<real>, d: Option<Detection>) returns (lost: Option<real>)
    ensures lost == if baseline.Some? && d.Some? then Some(Lost(x, baseline.value, d.value)) else None
  {
    if baseline.None? || d.None? {
      return None;
    }
    var v := DeficitOver(x.b, Goodput, baseline.value, x.fire, Until(d.value, x.timeout));
    return Some(v);
  }

  /** The components, in any order. */
  method Components(x: Input, p: Params) returns (m: map<Component, Detection>)
    ensures ComponentsOf(m, x, p, COMPONENTS)
  {
    m := map[];
    var left := COMPONENTS;
    while left != {}
      invariant left <= COMPONENTS && ComponentsOf(m, x, p, COMPONENTS - left)
    {
      var c :| c in left;
      var base := BaselineOver(x.b, c, x.warmupEnd, x.BaselineEnd());
      var d := DetectFrom(x.b, c, base, x.fire, x.fire, x.timeout, p);
      m, left := m[c := d], left - {c};
    }
  }

  /** A row for each entry bar, window and hold of the sweep. */
  method SweepRows(x: Input, pre: real, exitPct: nat, sweep: Sweep, eq: Option<real>) returns (rows: seq<Row>)
    requires pre == x.PreFault()
    ensures forall r :: r in rows ==> RowReports(r, x, eq)
    ensures forall e, w, h :: e in sweep.entryPct && w in sweep.window && h in sweep.hold ==>
      Params(w, e, exitPct, h) in Swept(rows)
  {
    rows := [];
    for i := 0 to |sweep.entryPct|
      invariant forall r :: r in rows ==> RowReports(r, x, eq)
      invariant forall e, w, h :: e in sweep.entryPct[..i] && w in sweep.window && h in sweep.hold ==>
        Params(w, e, exitPct, h) in Swept(rows)
    {
      var e, before := sweep.entryPct[i], Swept(rows);
      for j := 0 to |sweep.window|
        invariant before <= Swept(rows)
        invariant forall r :: r in rows ==> RowReports(r, x, eq)
        invariant forall w, h :: w in sweep.window[..j] && h in sweep.hold ==> Params(w, e, exitPct, h) in Swept(rows)
      {
        rows := SweepHold(x, pre, e, sweep.window[j], exitPct, sweep.hold, eq, rows);
        assert sweep.window[..j + 1] == sweep.window[..j] + [sweep.window[j]];
      }
      assert sweep.window[..|sweep.window|] == sweep.window;
      assert sweep.entryPct[..i + 1] == sweep.entryPct[..i] + [e];
    }
    assert sweep.entryPct[..|sweep.entryPct|] == sweep.entryPct;
  }

  function Swept(rows: seq<Row>): set<Params> { set r | r in rows :: r.p }

  method DetectAt(x: Input, baseline: Option<real>, scanFrom: Option<int>, p: Params) returns (d: Option<Detection>)
    ensures ReportsFrom(d, x, baseline, scanFrom, p)
  {
    if baseline.None? || scanFrom.None? {
      return None;
    }
    var v := DetectFrom(x.b, Goodput, baseline.value, x.fire, scanFrom.value, x.timeout, p);
    return Some(v);
  }

  /** The sweep's rows at one entry bar and window, over its holds. */
  method SweepHold(x: Input, preFault: real, e: nat, w: nat, exitPct: nat, holds: seq<nat>, eq: Option<real>,
                   before: seq<Row>)
    returns (rows: seq<Row>)
    requires preFault == x.PreFault()
    requires forall r :: r in before ==> RowReports(r, x, eq)
    ensures forall r :: r in rows ==> RowReports(r, x, eq)
    ensures Swept(before) <= Swept(rows) && forall h :: h in holds ==> Params(w, e, exitPct, h) in Swept(rows)
  {
    rows := before;
    for k := 0 to |holds|
      invariant forall r :: r in rows ==> RowReports(r, x, eq)
      invariant Swept(before) <= Swept(rows) && forall h :: h in holds[..k] ==> Params(w, e, exitPct, h) in Swept(rows)
    {
      var p := Params(w, e, exitPct, holds[k]);
      var pre := DetectFrom(x.b, Goodput, preFault, x.fire, x.fire, x.timeout, p);
      var toEq := DetectAt(x, eq, Some(x.fire), p);
      var heal := DetectAt(x, Some(preFault), x.HealAt(), p);
      var row := Row(p, pre, toEq, heal);
      ghost var was := rows;
      rows := rows + [row];
      assert row in rows && (forall r :: r in was ==> r in rows);
      assert holds[..k + 1] == holds[..k] + [holds[k]];
    }
    assert holds[..|holds|] == holds;
  }

  ghost predicate NoWorse(e: Detection, d: Detection) {
    && (d.recoveredAt.Some? ==> e.recoveredAt.Some? && e.recoveredAt.value <= d.recoveredAt.value)
    && (d.holdUnobserved ==> !e.notRecovered)
  }

  /** The partition-heal recovery is never before the heal, nor before the raw one. */
  lemma HealIsLater(x: Input, p: Params, pre: Detection, heal: Detection)
    requires Contiguous(x.b) && x.heal.Some? && Reports(pre, x.b, Goodput, x.PreFault(), x.fire, x.fire, x.timeout, p)
    requires ReportsFrom(Some(heal), x, Some(x.PreFault()), x.HealAt(), p)
    ensures NoWorse(pre, heal)
    ensures heal.recoveredAt.Some? ==> x.heal.value <= heal.recoveredAt.value && heal.ttr.Some? && heal.ttr.value >= 0.0
  {
    LooserNoWorse(heal, pre, x.b, Goodput, x.PreFault(), x.fire, x.HealAt().value, x.fire, x.timeout, p, p);
    NeverBeforeTheFire(heal, x.b, Goodput, x.PreFault(), x.fire, x.HealAt().value, x.timeout, p);
  }

  /** Down the sweep's entry bars and holds, no verdict worsens, against any of its baselines. */
  lemma SweepMonotone(x: Input, eq: Option<real>, strict: Row, loose: Row)
    requires Contiguous(x.b) && RowReports(strict, x, eq) && RowReports(loose, x, eq)
    requires loose.p.window == strict.p.window && loose.p.hold <= strict.p.hold && loose.p.entryPct <= strict.p.entryPct
    ensures NoWorse(loose.pre, strict.pre)
    ensures eq.Some? ==> loose.eq.Some? && strict.eq.Some? && NoWorse(loose.eq.value, strict.eq.value)
    ensures x.heal.Some? ==> loose.heal.Some? && strict.heal.Some? && NoWorse(loose.heal.value, strict.heal.value)
  {
    LooserNoWorse(strict.pre, loose.pre, x.b, Goodput, x.PreFault(), x.fire, x.fire, x.fire, x.timeout, strict.p, loose.p);
    if eq.Some? {
      LooserNoWorse(strict.eq.value, loose.eq.value, x.b, Goodput, eq.value, x.fire, x.fire, x.fire, x.timeout,
                    strict.p, loose.p);
    }
    if x.heal.Some? {
      var at := x.HealAt().value;
      LooserNoWorse(strict.heal.value, loose.heal.value, x.b, Goodput, x.PreFault(), x.fire, at, at, x.timeout,
                    strict.p, loose.p);
    }
  }

  // ----- the level before the fault, and what is lost

  lemma {:induction false} SameSums(b: seq<Bucket>, d: seq<Bucket>, c: Component, from: int, until: int)
    requires |b| == |d| && forall k :: 0 <= k < |b| ==> b[k].start == d[k].start && (b[k].start < until ==> b[k] == d[k])
    ensures NumOver(b, c, from, until) == NumOver(d, c, from, until)
    ensures DenOver(b, c, from, until) == DenOver(d, c, from, until)
  {
    if b != [] {
      SameSums(b[..|b| - 1], d[..|d| - 1], c, from, until);
    }
  }

  /** Nothing of the guard window enters a level before the fault: it is the same for any
      traffic in the buckets that do not end before the guard. */
  lemma GuardStaysOut(x: Input, d: seq<Bucket>, c: Component)
    requires Contiguous(x.b) && |d| == |x.b|
    requires forall k :: 0 <= k < |d| ==>
      d[k].start == x.b[k].start && (x.b[k].start + SECOND <= x.GuardStart() ==> d[k] == x.b[k])
    ensures x.(b := d).Level(c) == x.Level(c)
  {
    forall k | 0 <= k < |d| && x.b[k].start < x.BaselineEnd()
      ensures d[k] == x.b[k]
    {
      WholeSeconds(k, x.GuardStart() - x.b[0].start);
    }
    SameSums(x.b, d, c, x.warmupEnd, x.BaselineEnd());
  }

  lemma WholeSeconds(k: nat, ns: int)
    requires k * SECOND < TruncSeconds(ns) * SECOND
    ensures (k + 1) * SECOND <= ns
  {
  }

  /** What is lost only grows with time, and is never negative. */
  lemma {:induction false} DeficitGrows(b: seq<Bucket>, c: Component, baseline: real, from: int, until: int, later: int)
    requires until <= later
    ensures 0.0 <= Deficit(b, c, baseline, from, until) <= Deficit(b, c, baseline, from, later)
  {
    if b != [] {
      DeficitGrows(b[..|b| - 1], c, baseline, from, until, later);
    }
  }

  /** Nothing is lost exactly when every second with traffic met the baseline. */
  lemma {:induction false} NothingLost(b: seq<Bucket>, c: Component, baseline: real, from: int, until: int)
    ensures Deficit(b, c, baseline, from, until) == 0.0 <==>
      forall k :: 0 <= k < |b| && from <= b[k].start < until && c.Den(b[k]) > 0 ==> Ratio(c.Num(b[k]), c.Den(b[k])) >= baseline
  {
    if b != [] {
      var before := b[..|b| - 1];
      NothingLost(before, c, baseline, from, until);
      DeficitGrows(before, c, baseline, from, until, until);
      assert forall k :: 0 <= k < |before| ==> before[k] == b[k];
    }
  }

  /** At least as much is lost until the partition-heal recovery as until the raw one. */
  lemma HealLosesMore(x: Input, p: Params, pre: Detection, heal: Detection)
    requires Contiguous(x.b) && x.heal.Some? && Reports(pre, x.b, Goodput, x.PreFault(), x.fire, x.fire, x.timeout, p)
    requires ReportsFrom(Some(heal), x, Some(x.PreFault()), x.HealAt(), p)
    ensures 0.0 <= Lost(x, x.PreFault(), pre) <= Lost(x, x.PreFault(), heal)
  {
    HealIsLater(x, p, pre, heal);
    NeverBeforeTheFire(pre, x.b, Goodput, x.PreFault(), x.fire, x.fire, x.timeout, p);
    DeficitGrows(x.b, Goodput, x.PreFault(), x.fire, Until(pre, x.timeout), Until(heal, x.timeout));
  }
}
