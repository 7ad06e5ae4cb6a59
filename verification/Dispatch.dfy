// A cell's dispatches per second, the host's sum over its concurrent cells
// (cmd/percentes-release/dispatch.go), and the evidence check that reads it
// (internal/evidence/cell.go). Times are nanoseconds from Go's zero time, and a
// second is its number from there.
module Dispatch {
  import opened Prelude

  datatype Run = Run(route: string, name: string, attempt: int)

  /** The second a time falls in. */
  function Sec(t: int): int { t / SECOND }

  // ----- one cell's series

  /** Counts per second from the second start. */
  datatype Series = Series(start: int, counts: seq<nat>) {
    /** The first second past the series. */
    function End(): int { start + |counts| }

    /** The count of the second u. */
    function At(u: int): nat { if start <= u < End() then counts[u - start] else 0 }

    /** The count of the second u once sec has one more dispatch. */
    function Plus(u: int, sec: int): nat { At(u) + (if u == sec then 1 else 0) }
  }

  function Hits(times: seq<int>, u: int): nat {
    if times == [] then 0 else Hits(times[..|times| - 1], u) + (if Sec(times[|times| - 1]) == u then 1 else 0)
  }

  /** v counts exactly the dispatches at times, over just the seconds from the origin's
      or the earliest dispatch's to the origin's or the latest's. */
  ghost predicate Tallies(v: Series, origin: int, times: seq<int>) {
    && v.start <= origin <= v.End()
    && (v.start == origin || exists t :: t in times && Sec(t) == v.start)
    && (v.End() == origin || exists t :: t in times && Sec(t) + 1 == v.End())
    && (forall t :: t in times ==> v.start <= Sec(t) < v.End())
    && (forall u :: v.At(u) == Hits(times, u))
  }

  class DispatchSeries {
    const run: Run
    var start: int
    var counts: seq<nat>
    var final: bool
    var through: Option<int>

    function Value(): Series
      reads this
    {
      Series(start, counts)
    }

    constructor (r: Run, origin: int, isFinal: bool)
      ensures run == r && Value() == Series(Sec(origin), []) && final == isFinal && through == None
    {
      run, start, counts, final, through := r, Sec(origin), [], isFinal, None;
    }

    /** Count one dispatch, before the start or past the end alike. */
    method Add(at: int)
      modifies this`start, this`counts
      ensures Value() == Added(old(Value()), Sec(at))
    {
      var sec := Sec(at);
      if sec < start {
        counts := seq(start - sec, _ => 0) + counts;
        start := sec;
      }
      var k := sec - start;
      ghost var padded := Value();
      while |counts| <= k
        invariant start == padded.start && |padded.counts| <= |counts|
        invariant |counts| <= k + 1 || |counts| == |padded.counts|
        invariant counts == padded.counts + seq(|counts| - |padded.counts|, _ => 0)
      {
        counts := counts + [0];
      }
      counts := counts[k := counts[k] + 1];
      var after := Added(old(Value()), sec);
      assert |counts| == |after.counts|;
      forall i | 0 <= i < |counts|
        ensures counts[i] == after.counts[i]
      {
        assert after.counts[i] == old(Value()).Plus(start + i, sec);
      }
    }
  }

  /** v with one more dispatch in the second sec, over every second of v and up to it. */
  function Added(v: Series, sec: int): Series {
    var start, end := if sec < v.start then sec else v.start, if sec < v.End() then v.End() else sec + 1;
    Series(start, seq<nat>(end - start, i => v.Plus(start + i, sec)))
  }

  lemma AddedAt(v: Series, sec: int, u: int)
    ensures Added(v, sec).At(u) == v.Plus(u, sec)
  {
  }

  lemma TalliesMore(v: Series, origin: int, times: seq<int>, at: int)
    requires Tallies(v, origin, times)
    ensures Tallies(Added(v, Sec(at)), origin, times + [at])
  {
    var w, all, sec := Added(v, Sec(at)), times + [at], Sec(at);
    assert all[..|times|] == times && all[|times|] == at;
    assert forall t :: t in all <==> t in times || t == at;
    forall u
      ensures w.At(u) == Hits(all, u)
    {
      AddedAt(v, sec, u);
    }
    assert sec == w.start ==> exists t :: t in all && Sec(t) == w.start;
  }

  /** The series from origin with a dispatch at each of times. */
  function Tallied(origin: int, times: seq<int>): Series {
    if times == [] then Series(origin, []) else
    Added(Tallied(origin, times[..|times| - 1]), Sec(times[|times| - 1]))
  }

  lemma {:induction false} TalliedTallies(origin: int, times: seq<int>)
    ensures Tallies(Tallied(origin, times), origin, times)
  {
    if times != [] {
      var before, at := times[..|times| - 1], times[|times| - 1];
      TalliedTallies(origin, before);
      TalliesMore(Tallied(origin, before), origin, before, at);
      assert times == before + [at];
    }
  }

  /** A dispatched request's time on the wall clock, from the run's epoch; zero was never dispatched. */
  function Sent(epoch: int, requests: seq<int>): seq<int> {
    if requests == [] then [] else
    var before, ns := Sent(epoch, requests[..|requests| - 1]), requests[|requests| - 1];
    if ns != 0 then before + [epoch + ns] else before
  }

  /** A finished cell's series: its dispatched requests, counted in any order. */
  method NewDispatchSeries(run: Run, epoch: int, requests: seq<int>) returns (s: DispatchSeries)
    ensures fresh(s) && s.run == run && s.final && s.through.None?
    ensures s.Value() == Tallied(Sec(epoch), Sent(epoch, requests))
  {
    s := new DispatchSeries(run, epoch, true);
    for i := 0 to |requests|
      invariant fresh(s) && s.run == run && s.final && s.through.None?
      invariant s.Value() == Tallied(Sec(epoch), Sent(epoch, requests[..i]))
    {
      assert requests[..i + 1][..i] == requests[..i];
      if requests[i] != 0 {
        s.Add(epoch + requests[i]);
      }
    }
    assert requests[..|requests|] == requests;
  }

  lemma {:induction false} HitsSplit(a: seq<int>, b: seq<int>, u: int)
    ensures Hits(a + b, u) == Hits(a, u) + Hits(b, u)
    decreases |b|
  {
    if b == [] {
      assert a + b == a;
    } else {
      HitsSplit(a, b[..|b| - 1], u);
      assert (a + b)[..|a + b| - 1] == a + b[..|b| - 1];
    }
  }

  lemma HitsWithout(b: seq<int>, k: nat, u: int)
    requires k < |b|
    ensures Hits(b, u) == Hits(b[..k] + b[k + 1..], u) + Hits([b[k]], u)
    ensures multiset(b[..k] + b[k + 1..]) == multiset(b) - multiset{b[k]}
  {
    assert b == b[..k] + [b[k]] + b[k + 1..];
    HitsSplit(b[..k] + [b[k]], b[k + 1..], u);
    HitsSplit(b[..k], [b[k]], u);
    HitsSplit(b[..k], b[k + 1..], u);
  }

  lemma {:induction false} HitsSame(a: seq<int>, b: seq<int>, u: int)
    requires multiset(a) == multiset(b)
    ensures Hits(a, u) == Hits(b, u)
    decreases |a|
  {
    if a == [] {
      assert |multiset(b)| == 0;
    } else {
      assert a[0] in multiset(b);
      var k :| 0 <= k < |b| && b[k] == a[0];
      HitsWithout(a, 0, u);
      HitsWithout(b, k, u);
      HitsSame(a[..0] + a[1..], b[..k] + b[k + 1..], u);
    }
  }

  /** One series, whatever order the dispatches are counted in. */
  lemma OrderIsImmaterial(v: Series, w: Series, origin: int, a: seq<int>, b: seq<int>)
    requires Tallies(v, origin, a) && Tallies(w, origin, b) && multiset(a) == multiset(b)
    ensures v == w
  {
    forall u
      ensures v.At(u) == w.At(u)
    {
      HitsSame(a, b, u);
    }
    assert forall t :: t in a <==> t in multiset(a);
    assert forall t :: t in b <==> t in multiset(b);
    forall k | 0 <= k < |v.counts|
      ensures v.counts[k] == w.counts[k]
    {
      assert v.At(v.start + k) == w.At(v.start + k);
    }
  }

  // ----- the host's sum over a cell

  /** A run's series as read: nothing past through is sure to be counted, unless it is final. */
  datatype Snapshot = Snapshot(run: Run, series: Series, final: bool, through: Option<int>)

  datatype Source = Source(run: Run, dispatches: int, final: bool, through: Option<int>)

  /** The requests every route sent per second, from start through the second of end. */
  datatype HostSeries = HostSeries(start: int, end: int, counts: seq<int>, max: int, maxAt: Option<int>, sources: seq<Source>)

  function Sum(counts: seq<int>): int {
    if counts == [] then 0 else Sum(counts[..|counts| - 1]) + counts[|counts| - 1]
  }

  function SentBy(sources: seq<Source>): int {
    if sources == [] then 0 else SentBy(sources[..|sources| - 1]) + sources[|sources| - 1].dispatches
  }

  /** All the runs' counts of the second u. */
  function HostAt(own: Snapshot, read: seq<Option<Snapshot>>, u: int): int {
    if read == [] then own.series.At(u) else
    var last := read[|read| - 1];
    HostAt(own, read[..|read| - 1], u) + (if last.None? then 0 else last.value.series.At(u))
  }

  /** What the first n counts of a series have in the span of size seconds from lo. */
  function Inside(v: Series, lo: int, size: nat, n: nat): nat
    requires n <= |v.counts|
  {
    if n == 0 then 0 else
    Inside(v, lo, size, n - 1) + (if lo <= v.start + n - 1 < lo + size then v.counts[n - 1] else 0)
  }

  lemma {:induction false} SumUpdate(counts: seq<int>, i: nat, c: int)
    requires i < |counts|
    ensures Sum(counts[i := counts[i] + c]) == Sum(counts) + c
  {
    var n := |counts| - 1;
    if i < n {
      SumUpdate(counts[..n], i, c);
      assert counts[i := counts[i] + c][..n] == counts[..n][i := counts[i] + c];
    } else {
      assert counts[i := counts[i] + c][..n] == counts[..n];
    }
  }

  lemma {:induction false} SumZeros(counts: seq<int>)
    requires forall k :: 0 <= k < |counts| ==> counts[k] == 0
    ensures Sum(counts) == 0
  {
    if counts != [] {
      SumZeros(counts[..|counts| - 1]);
    }
  }

  /** Add a series' counts inside the span from lo; how many there are. */
  method AddSeries(counts: array<int>, lo: int, v: Series) returns (n: nat)
    modifies counts
    ensures forall k :: 0 <= k < counts.Length ==> counts[k] == old(counts[k]) + v.At(lo + k)
    ensures n == Inside(v, lo, counts.Length, |v.counts|) && Sum(counts[..]) == old(Sum(counts[..])) + n
  {
    n := 0;
    for k := 0 to |v.counts|
      invariant n == Inside(v, lo, counts.Length, k) && Sum(counts[..]) == old(Sum(counts[..])) + n
      invariant forall j :: 0 <= j < counts.Length ==>
        counts[j] == old(counts[j]) + (if v.start <= lo + j < v.start + k then v.counts[lo + j - v.start] else 0)
    {
      var i := v.start + k - lo;
      if 0 <= i < counts.Length {
        ghost var was := counts[..];
        SumUpdate(was, i, v.counts[k]);
        counts[i] := counts[i] + v.counts[k];
        assert counts[..] == was[i := was[i] + v.counts[k]];
        n := n + v.counts[k];
      }
    }
  }

  function SourceOf(s: Snapshot, lo: int, size: nat): Source {
    Source(s.run, Inside(s.series, lo, size, |s.series.counts|), s.final, if s.final then None else s.through)
  }

  /** The host's series over a cell, from its own series, whole unless the cell was
      interrupted, and what was read of each concurrent run's. */
  method HostDispatch(from: int, until: int, own: Snapshot, runs: seq<Run>, read: seq<Option<Snapshot>>,
                      ghost interrupted: bool)
    returns (d: HostSeries)
    requires 0 < Sec(from) && from <= until && |read| == |runs| && (own.final || interrupted)
    requires forall i :: 0 <= i < |read| && read[i].Some? ==> read[i].value.run == runs[i]
    ensures forall p :: !Faulty(p, d, own.run, runs, interrupted)
    ensures d.start == Sec(from) * SECOND && d.end == until && Sec(from) + |d.counts| == Sec(until) + 1
    ensures forall k :: 0 <= k < |d.counts| ==> d.counts[k] == HostAt(own, read, Sec(from) + k)
    ensures |d.sources| == 1 + |read| && d.sources[0] == SourceOf(own, Sec(from), |d.counts|)
    ensures forall i :: 0 <= i < |read| ==> d.sources[1 + i] == SourceRead(runs[i], read[i], Sec(from), |d.counts|)
  {
    var lo := Sec(from);
    var size := TruncSeconds(until - lo * SECOND) + 1;
    var counts, sources := SumSeries(lo, size, own, runs, read);
    var max, maxAt := FirstMax(counts, lo * SECOND);
    d := HostSeries(lo * SECOND, until, counts, max, maxAt, sources);
    forall k | 0 <= k < size
      ensures counts[k] >= 0
    {
      HostAtNonneg(own, read, lo + k);
    }
  }

  lemma {:induction false} HostAtNonneg(own: Snapshot, read: seq<Option<Snapshot>>, u: int)
    ensures HostAt(own, read, u) >= 0
  {
    if read != [] {
      HostAtNonneg(own, read[..|read| - 1], u);
    }
  }

  function SourceRead(run: Run, s: Option<Snapshot>, lo: int, size: nat): Source {
    if s.None? then Source(run, 0, false, None) else SourceOf(s.value, lo, size)
  }

  method SumSeries(lo: int, size: nat, own: Snapshot, runs: seq<Run>, read: seq<Option<Snapshot>>)
    returns (sums: seq<int>, sources: seq<Source>)
    requires |read| == |runs| && forall i :: 0 <= i < |read| && read[i].Some? ==> read[i].value.run == runs[i]
    ensures |sums| == size && forall k :: 0 <= k < size ==> sums[k] == HostAt(own, read, lo + k)
    ensures |sources| == 1 + |read| && sources[0] == SourceOf(own, lo, size) && SentBy(sources) == Sum(sums)
    ensures forall i :: 0 <= i < |read| ==> sources[1 + i] == SourceRead(runs[i], read[i], lo, size)
    ensures forall i :: 0 <= i < |read| ==> sources[1 + i].run == runs[i]
  {
    var counts := new int[size](_ => 0);
    SumZeros(counts[..]);
    var n := AddSeries(counts, lo, own.series);
    sources := [Source(own.run, n, own.final, if own.final then None else own.through)];
    assert sources[..0] == [];
    for i := 0 to |runs|
      invariant |sources| == 1 + i && SentBy(sources) == Sum(counts[..]) && sources[0] == SourceOf(own, lo, size)
      invariant forall j :: 0 <= j < i ==> sources[1 + j] == SourceRead(runs[j], read[j], lo, size)
      invariant forall j :: 0 <= j < i ==> sources[1 + j].run == runs[j]
      invariant forall k :: 0 <= k < size ==> counts[k] == HostAt(own, read[..i], lo + k)
    {
      assert read[..i + 1][..i] == read[..i];
      var src := Source(runs[i], 0, false, None);
      if read[i].Some? {
        var s := read[i].value;
        var part := AddSeries(counts, lo, s.series);
        src := Source(runs[i], part, s.final, if s.final then None else s.through);
      }
      assert (sources + [src])[..|sources|] == sources;
      sources := sources + [src];
    }
    assert read[..|runs|] == read;
    return counts[..], sources;
  }

  method FirstMax(counts: seq<int>, start: int) returns (max: int, maxAt: Option<int>)
    ensures max == Top(counts) && MaxAtIs(counts, start, maxAt)
  {
    max, maxAt := 0, None;
    for k := 0 to |counts|
      invariant max == Top(counts[..k]) && MaxAtIs(counts[..k], start, maxAt)
    {
      TopMore(counts[..k], counts[k], start, maxAt);
      assert counts[..k + 1] == counts[..k] + [counts[k]];
      if counts[k] > max {
        max, maxAt := counts[k], Some(start + k * SECOND);
      }
    }
    assert counts[..|counts|] == counts;
  }

  // ----- the evidence check

  datatype Problem =
    | SourceCount | SourceIs(i: int) | NotFinal | BadSpan | BadLength | Negative(k: int) | BadSum | BadMax | BadMaxAt

  function Top(counts: seq<int>): (t: int)
    ensures t >= 0 && forall k :: 0 <= k < |counts| ==> counts[k] <= t
    ensures t > 0 ==> t in counts
  {
    if counts == [] then 0 else
    var before, n := Top(counts[..|counts| - 1]), counts[|counts| - 1];
    if n > before then n else before
  }

  ghost predicate FirstTop(counts: seq<int>, k: int) {
    0 <= k < |counts| && counts[k] == Top(counts) && forall j :: 0 <= j < k ==> counts[j] < counts[k]
  }

  /** maxAt is the first second of the greatest count, if any second has a dispatch. */
  ghost predicate MaxAtIs(counts: seq<int>, start: int, maxAt: Option<int>) {
    if Top(counts) == 0 then maxAt.None? else exists k :: FirstTop(counts, k) && maxAt == Some(start + k * SECOND)
  }

  lemma TopMore(counts: seq<int>, n: int, start: int, maxAt: Option<int>)
    requires MaxAtIs(counts, start, maxAt)
    ensures Top(counts + [n]) == if n > Top(counts) then n else Top(counts)
    ensures MaxAtIs(counts + [n], start, if n > Top(counts) then Some(start + |counts| * SECOND) else maxAt)
  {
    assert (counts + [n])[..|counts|] == counts;
    if n > Top(counts) {
      FirstTopNew(counts, n);
    } else if Top(counts) > 0 {
      var k :| FirstTop(counts, k) && maxAt == Some(start + k * SECOND);
      FirstTopStays(counts, n, k);
    }
  }

  lemma FirstTopNew(counts: seq<int>, n: int)
    requires n > Top(counts)
    ensures FirstTop(counts + [n], |counts|)
  {
    var all := counts + [n];
    assert all[..|counts|] == counts;
    assert forall j :: 0 <= j < |counts| ==> all[j] == counts[j];
  }

  lemma FirstTopStays(counts: seq<int>, n: int, k: int)
    requires FirstTop(counts, k) && n <= Top(counts)
    ensures FirstTop(counts + [n], k)
  {
    var all := counts + [n];
    assert all[..|counts|] == counts;
    assert forall j :: 0 <= j <= k ==> all[j] == counts[j];
  }

  /** What each problem says is wrong with the series of a cell's run and its concurrent runs. */
  ghost predicate Faulty(p: Problem, d: HostSeries, run: Run, concurrent: seq<Run>, interrupted: bool) {
    var runs := [run] + concurrent;
    match p
    case SourceCount => |d.sources| != |runs|
    case SourceIs(i) => |d.sources| == |runs| && 0 <= i < |runs| && d.sources[i].run != runs[i]
    case NotFinal => |d.sources| == |runs| && !d.sources[0].final && !interrupted
    case BadSpan => d.start == 0 || d.end < d.start
    case BadLength => d.start != 0 && d.start <= d.end && |d.counts| != TruncSeconds(d.end - d.start) + 1
    case Negative(k) => 0 <= k < |d.counts| && d.counts[k] < 0
    case BadSum => Sum(d.counts) != SentBy(d.sources)
    case BadMax => d.max != Top(d.counts)
    case BadMaxAt => d.max == Top(d.counts) && !MaxAtIs(d.counts, d.start, d.maxAt)
  }

  /** Every way a series disagrees with itself or with the cell's runs, and nothing else. */
  method DispatchProblems(d: HostSeries, run: Run, concurrent: seq<Run>, interrupted: bool) returns (problems: seq<Problem>)
    ensures forall p :: p in problems <==> Faulty(p, d, run, concurrent, interrupted)
  {
    var first := SourceProblems(d, run, concurrent, interrupted);
    var span := if d.start == 0 || d.end < d.start then [BadSpan]
                else if |d.counts| != TruncSeconds(d.end - d.start) + 1 then [BadLength]
                else [];
    var negative := NegativeProblems(d.counts);
    var rest := SumProblems(d);
    problems := first + span + negative + rest;
    forall p
      ensures p in problems <==> Faulty(p, d, run, concurrent, interrupted)
    {
      assert p in problems <==> p in first || p in span || p in negative || p in rest;
      match p
      case SourceCount =>
      case SourceIs(i) =>
      case NotFinal =>
      case BadSpan =>
      case BadLength =>
      case Negative(k) =>
      case BadSum =>
      case BadMax =>
      case BadMaxAt =>
    }
  }

  method NegativeProblems(counts: seq<int>) returns (problems: seq<Problem>)
    ensures forall p :: p in problems <==> p.Negative? && 0 <= p.k < |counts| && counts[p.k] < 0
  {
    problems := [];
    for k := 0 to |counts|
      invariant forall p :: p in problems <==> p.Negative? && 0 <= p.k < k && counts[p.k] < 0
    {
      if counts[k] < 0 {
        problems := problems + [Negative(k)];
      }
    }
  }

  method SumProblems(d: HostSeries) returns (problems: seq<Problem>)
    ensures forall p :: p in problems <==>
      (p.BadSum? && Sum(d.counts) != SentBy(d.sources))
      || (p.BadMax? && d.max != Top(d.counts))
      || (p.BadMaxAt? && d.max == Top(d.counts) && !MaxAtIs(d.counts, d.start, d.maxAt))
  {
    var sent := 0;
    for i := 0 to |d.sources|
      invariant sent == SentBy(d.sources[..i])
    {
      assert d.sources[..i + 1][..i] == d.sources[..i];
      sent := sent + d.sources[i].dispatches;
    }
    assert d.sources[..|d.sources|] == d.sources;
    var sum, top, at := SumTop(d.counts);
    FirstTopOnly(d.counts, at, d.start, d.maxAt);
    problems := if sum != sent then [BadSum] else [];
    if d.max != top {
      problems := problems + [BadMax];
    } else if (at < 0 && d.maxAt.Some?) || (at >= 0 && d.maxAt != Some(d.start + at * SECOND)) {
      problems := problems + [BadMaxAt];
    }
  }

  method SumTop(counts: seq<int>) returns (sum: int, top: int, at: int)
    ensures sum == Sum(counts) && top == Top(counts)
    ensures if at < 0 then top == 0 else FirstTop(counts, at) && top > 0
  {
    sum, top, at := 0, 0, -1;
    for k := 0 to |counts|
      invariant sum == Sum(counts[..k]) && top == Top(counts[..k])
      invariant if at < 0 then top == 0 else FirstTop(counts[..k], at) && top > 0
    {
      var n := counts[k];
      assert counts[..k + 1][..k] == counts[..k];
      sum := sum + n;
      if n > top {
        top, at := n, k;
      }
    }
    assert counts[..|counts|] == counts;
  }

  lemma FirstTopOnly(counts: seq<int>, at: int, start: int, maxAt: Option<int>)
    requires if at < 0 then Top(counts) == 0 else FirstTop(counts, at) && Top(counts) > 0
    ensures MaxAtIs(counts, start, maxAt) <==> if at < 0 then maxAt.None? else maxAt == Some(start + at * SECOND)
  {
  }

  method SourceProblems(d: HostSeries, run: Run, concurrent: seq<Run>, interrupted: bool) returns (problems: seq<Problem>)
    ensures forall p :: p in problems <==>
      (p.SourceCount? || p.SourceIs? || p.NotFinal?) && Faulty(p, d, run, concurrent, interrupted)
  {
    var runs := [run] + concurrent;
    problems := [];
    if |d.sources| != |runs| {
      return [SourceCount];
    }
    for i := 0 to |runs|
      invariant forall p :: p in problems <==> p.SourceIs? && 0 <= p.i < i && d.sources[p.i].run != runs[p.i]
    {
      if d.sources[i].run != runs[i] {
        problems := problems + [SourceIs(i)];
      }
    }
    if !d.sources[0].final && !interrupted {
      problems := problems + [NotFinal];
    }
  }
}
