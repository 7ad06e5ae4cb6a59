// What the host's series counts of its runs' dispatches (cmd/percentes-release/dispatch.go):
// every second's of every run, and each source's inside the series' seconds.
module DispatchMeaning {
  import opened Prelude
  import opened Dispatch

  /** v counts exactly the dispatches at times. */
  ghost predicate CountsOf(v: Series, times: seq<int>) {
    && (forall u :: v.At(u) == Hits(times, u))
    && (forall t :: t in times ==> v.start <= Sec(t) < v.End())
  }

  lemma TalliesCount(v: Series, origin: int, times: seq<int>)
    requires Tallies(v, origin, times)
    ensures CountsOf(v, times)
  {
  }

  /** A dispatched request's time is the epoch and its own, once for each; one never dispatched has none. */
  lemma {:induction false} SentExactly(epoch: int, requests: seq<int>, t: int)
    ensures multiset(Sent(epoch, requests))[t] == if t == epoch then 0 else multiset(requests)[t - epoch]
  {
    if requests != [] {
      var before, ns := requests[..|requests| - 1], requests[|requests| - 1];
      SentExactly(epoch, before, t);
      assert requests == before + [ns];
    }
  }

  // ----- seconds

  /** The dispatches in the seconds from lo to hi. */
  function Between(times: seq<int>, lo: int, hi: int): nat {
    if times == [] then 0 else
    Between(times[..|times| - 1], lo, hi) + (if lo * SECOND <= times[|times| - 1] < hi * SECOND then 1 else 0)
  }

  lemma SecIs(t: int, u: int)
    ensures Sec(t) == u <==> u * SECOND <= t < (u + 1) * SECOND
  {
  }

  lemma {:induction false} HitsBetween(times: seq<int>, u: int)
    ensures Hits(times, u) == Between(times, u, u + 1)
  {
    if times != [] {
      HitsBetween(times[..|times| - 1], u);
      SecIs(times[|times| - 1], u);
    }
  }

  lemma {:induction false} BetweenSplit(times: seq<int>, lo: int, mid: int, hi: int)
    requires lo <= mid <= hi
    ensures Between(times, lo, hi) == Between(times, lo, mid) + Between(times, mid, hi)
  {
    if times != [] {
      BetweenSplit(times[..|times| - 1], lo, mid, hi);
    }
  }

  lemma {:induction false} BetweenNone(times: seq<int>, lo: int, hi: int)
    requires forall t :: t in times ==> !(lo <= Sec(t) < hi)
    ensures Between(times, lo, hi) == 0
  {
    if times != [] {
      var t := times[|times| - 1];
      BetweenNone(times[..|times| - 1], lo, hi);
      SecIs(t, Sec(t));
      assert t in times;
    }
  }

  function Later(a: int, b: int): int { if a < b then b else a }
  function Sooner(a: int, b: int): int { if a < b then a else b }

  lemma {:induction false} InsideBetween(v: Series, times: seq<int>, lo: int, size: nat, n: nat)
    requires CountsOf(v, times) && n <= |v.counts|
    ensures var from, until := Later(lo, v.start), Sooner(lo + size, v.start + n);
      Inside(v, lo, size, n) == if from < until then Between(times, from, until) else 0
  {
    if n > 0 {
      InsideBetween(v, times, lo, size, n - 1);
      var u := v.start + n - 1;
      assert v.At(u) == v.counts[n - 1];
      HitsBetween(times, u);
      if lo <= u < lo + size && Later(lo, v.start) <= u {
        BetweenSplit(times, Later(lo, v.start), u, u + 1);
        if Later(lo, v.start) == u {
          BetweenEmpty(times, u);
        }
      }
    }
  }

  lemma {:induction false} BetweenEmpty(times: seq<int>, u: int)
    ensures Between(times, u, u) == 0
  {
    if times != [] {
      BetweenEmpty(times[..|times| - 1], u);
    }
  }

  /** A source's dispatches are its run's in the seconds of the host's series. */
  lemma SourceExactly(s: Snapshot, times: seq<int>, lo: int, size: nat)
    requires CountsOf(s.series, times)
    ensures SourceOf(s, lo, size).dispatches == Between(times, lo, lo + size)
  {
    var v := s.series;
    var from, until := Later(lo, v.start), Sooner(lo + size, v.End());
    InsideBetween(v, times, lo, size, |v.counts|);
    if from < until {
      BetweenSplit(times, lo, from, lo + size);
      BetweenSplit(times, from, until, lo + size);
      BetweenNone(times, lo, from);
      BetweenNone(times, until, lo + size);
    } else {
      BetweenNone(times, lo, lo + size);
    }
  }

  // ----- the host's second

  /** All the runs' dispatches. */
  function Together(own: seq<int>, others: seq<seq<int>>): seq<int> {
    if others == [] then own else Together(own, others[..|others| - 1]) + others[|others| - 1]
  }

  /** What was read of a run counts its dispatches; nothing read counts none. */
  ghost predicate ReadOf(s: Option<Snapshot>, times: seq<int>) {
    if s.None? then times == [] else CountsOf(s.value.series, times)
  }

  /** A second of the host's series is every run's dispatches in it. */
  lemma {:induction false} HostExactly(own: Snapshot, read: seq<Option<Snapshot>>, times: seq<int>, others: seq<seq<int>>, u: int)
    requires CountsOf(own.series, times) && |others| == |read|
    requires forall i :: 0 <= i < |read| ==> ReadOf(read[i], others[i])
    ensures HostAt(own, read, u) == Between(Together(times, others), u, u + 1)
  {
    HitsBetween(Together(times, others), u);
    if read != [] {
      var n := |read| - 1;
      HostExactly(own, read[..n], times, others[..n], u);
      HitsBetween(Together(times, others[..n]), u);
      HitsSplit(Together(times, others[..n]), others[n], u);
      assert ReadOf(read[n], others[n]);
    }
  }
}
