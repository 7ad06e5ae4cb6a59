// The Aalen-Johansen estimator of completion incidence
// (internal/collect/incidence.go), in exact reals.
module Incidence {
  import opened Prelude

  datatype Kind = Completion | Error | Censored

  datatype Obs = Obs(time: int, kind: Kind)

  datatype Point = Point(time: int, incidence: real, atRisk: nat, events: nat, errors: nat)

  datatype Curve = Curve(n: nat, points: seq<Point>, censored: nat, finalSurvival: real, horizon: int) {
    /** The completion incidence where the curve ends. */
    function FinalIncidence(): real {
      if points == [] then 0.0 else points[|points| - 1].incidence
    }

    /** The highest incidence the curve could ever reach. */
    function Ceiling(): real { FinalIncidence() + finalSurvival }
  }

  // ----- one group of tied observations

  function Frac(d: nat, n: nat): real
    requires n > 0
  {
    d as real / n as real
  }

  /** The part of survival that d of n at risk carry. */
  function Share(s: real, d: nat, n: nat): real
    requires n > 0
  {
    s * Frac(d, n)
  }

  /** The part that the others carry. */
  function Left(s: real, d: nat, n: nat): real
    requires n > 0
  {
    s * (1.0 - Frac(d, n))
  }

  /** Survival after d of n at risk leave it. */
  function Survive(s: real, d: nat, n: nat): real
    requires n > 0
  {
    if d > 0 then Left(s, d, n) else s
  }

  /** Incidence after d of n at risk reach it. */
  function Reach(cif: real, s: real, d: nat, n: nat): real
    requires n > 0
  {
    if d > 0 then cif + Share(s, d, n) else cif
  }

  lemma FracBounds(d: nat, n: nat)
    requires 0 < n && d <= n
    ensures 0.0 <= Frac(d, n) <= 1.0
    ensures d > 0 ==> Frac(d, n) > 0.0
    ensures Frac(d, n) == 1.0 <==> d == n
    ensures d == 0 ==> Frac(d, n) == 0.0
  {
    DivBounds(d as real, n as real);
  }

  lemma DivBounds(x: real, y: real)
    requires 0.0 <= x <= y && y > 0.0
    ensures 0.0 <= x / y <= 1.0 && (x > 0.0 ==> x / y > 0.0) && (x / y == 1.0 <==> x == y) && (x == 0.0 ==> x / y == 0.0)
  {
    var f := x / y;
    assert f * y == x;
  }

  lemma FracAdd(d: nat, e: nat, n: nat)
    requires 0 < n
    ensures Frac(d + e, n) == Frac(d, n) + Frac(e, n)
  {
    DivAdd(d as real, e as real, n as real);
  }

  lemma DivAdd(x: real, y: real, z: real)
    requires z > 0.0
    ensures (x + y) / z == x / z + y / z
  {
  }

  lemma MulSigns(x: real, y: real)
    requires x > 0.0 && y >= 0.0
    ensures x * y >= 0.0 && (y > 0.0 ==> x * y > 0.0)
  {
  }

  /** What leaves survival is what the two kinds of event gain. */
  lemma GroupMass(s: real, cif: real, eif: real, d: nat, e: nat, n: nat)
    requires 0 < n
    ensures Survive(s, d + e, n) + Reach(cif, s, d, n) + Reach(eif, s, e, n) == s + cif + eif
  {
    FracAdd(d, e, n);
    var a, b := Frac(d, n), Frac(e, n);
    assert s * (1.0 - (a + b)) + s * a + s * b == s;
    assert d == 0 ==> a == 0.0;
    assert e == 0 ==> b == 0.0;
  }

  lemma GroupSigns(s: real, cif: real, d: nat, e: nat, n: nat)
    requires d + e <= n && 0 < n && s > 0.0
    ensures Survive(s, d + e, n) >= 0.0 && (d + e < n ==> Survive(s, d + e, n) > 0.0)
    ensures Reach(cif, s, d, n) >= cif && (d > 0 ==> Reach(cif, s, d, n) > cif)
  {
    FracBounds(d, n);
    FracBounds(d + e, n);
    MulSigns(s, Frac(d, n));
    MulSigns(s, 1.0 - Frac(d + e, n));
  }

  // ----- groups of tied observations

  /** The observations at one time: completions, errors and censored. */
  datatype Group = Group(time: int, completions: nat, errors: nat, waiting: nat) {
    function Size(): nat { completions + errors + waiting }

    function Of(kind: Kind): nat {
      match kind
      case Completion => completions
      case Error => errors
      case Censored => waiting
    }

    /** The group's observations. */
    function Whole(): multiset<Obs> {
      multiset{}[Obs(time, Completion) := completions][Obs(time, Error) := errors][Obs(time, Censored) := waiting]
    }

    /** One more observation of a kind. */
    function Plus(kind: Kind): Group {
      match kind
      case Completion => this.(completions := completions + 1)
      case Error => this.(errors := errors + 1)
      case Censored => this.(waiting := waiting + 1)
    }
  }

  /** How many observations the first k groups hold. */
  function Size(gs: seq<Group>, k: nat): nat
    requires k <= |gs|
  {
    if k == 0 then 0 else Size(gs, k - 1) + gs[k - 1].Size()
  }

  /** Of the first k groups none is empty, and each is later than the one before. */
  ghost predicate Ordered(gs: seq<Group>, k: nat)
    requires k <= |gs|
  {
    k > 0 ==> Ordered(gs, k - 1) && gs[k - 1].Size() > 0 && (k > 1 ==> gs[k - 2].time < gs[k - 1].time)
  }

  lemma {:induction false} OrderedAll(gs: seq<Group>, k: nat)
    requires k <= |gs| && Ordered(gs, k)
    ensures forall j :: 0 <= j < k ==> gs[j].Size() > 0
    ensures forall i, j :: 0 <= i < j < k ==> gs[i].time < gs[j].time
  {
    if k > 0 {
      OrderedAll(gs, k - 1);
    }
  }

  ghost predicate HasTime(gs: seq<Group>, k: nat, t: int)
    requires k <= |gs|
  {
    exists j :: 0 <= j < k && gs[j].time == t
  }

  /** The observations of the first k groups. */
  function Union(gs: seq<Group>, k: nat): multiset<Obs>
    requires k <= |gs|
  {
    if k == 0 then multiset{} else Union(gs, k - 1) + gs[k - 1].Whole()
  }

  /** gs groups exactly the observations of m, one group a time, in order of time. */
  ghost predicate Groups(gs: seq<Group>, m: multiset<Obs>) { Ordered(gs, |gs|) && Union(gs, |gs|) == m }

  lemma WholeHas(g: Group)
    ensures |g.Whole()| == g.Size()
    ensures forall o :: g.Whole()[o] == if o.time == g.time then g.Of(o.kind) else 0
  {
    forall o
      ensures g.Whole()[o] == if o.time == g.time then g.Of(o.kind) else 0
    {
      match o.kind
      case Completion =>
      case Error =>
      case Censored =>
    }
  }

  lemma PlusWhole(g: Group, kind: Kind)
    ensures g.Plus(kind).Whole() == g.Whole() + multiset{Obs(g.time, kind)}
  {
    match kind
    case Completion =>
    case Error =>
    case Censored =>
  }

  lemma {:induction false} UnionSize(gs: seq<Group>, k: nat)
    requires k <= |gs|
    ensures |Union(gs, k)| == Size(gs, k)
  {
    if k > 0 {
      UnionSize(gs, k - 1);
      WholeHas(gs[k - 1]);
    }
  }

  lemma {:induction false} UnionTimes(gs: seq<Group>, k: nat)
    requires k <= |gs|
    ensures forall o :: o in Union(gs, k) ==> HasTime(gs, k, o.time)
  {
    if k > 0 {
      UnionTimes(gs, k - 1);
      WholeHas(gs[k - 1]);
      forall o | o in Union(gs, k)
        ensures HasTime(gs, k, o.time)
      {
        if o in Union(gs, k - 1) {
          var j :| 0 <= j < k - 1 && gs[j].time == o.time;
        }
      }
    }
  }

  lemma {:induction false} UnionLacks(gs: seq<Group>, k: nat, o: Obs)
    requires k <= |gs| && forall j :: 0 <= j < k ==> gs[j].time != o.time
    ensures Union(gs, k)[o] == 0
  {
    if k > 0 {
      UnionLacks(gs, k - 1, o);
      WholeHas(gs[k - 1]);
    }
  }

  /** Each group's counts are its time's in the union. */
  lemma {:induction false} UnionCounts(gs: seq<Group>, k: nat, j: nat, kind: Kind)
    requires j < k <= |gs| && Ordered(gs, k)
    ensures Union(gs, k)[Obs(gs[j].time, kind)] == gs[j].Of(kind)
  {
    var o := Obs(gs[j].time, kind);
    OrderedAll(gs, k);
    WholeHas(gs[k - 1]);
    if j < k - 1 {
      UnionCounts(gs, k - 1, j, kind);
    } else {
      UnionLacks(gs, k - 1, o);
    }
  }

  lemma UnionHas(gs: seq<Group>)
    requires Ordered(gs, |gs|)
    ensures |Union(gs, |gs|)| == Size(gs, |gs|)
    ensures forall j, kind :: 0 <= j < |gs| ==> Union(gs, |gs|)[Obs(gs[j].time, kind)] == gs[j].Of(kind)
    ensures forall o :: o in Union(gs, |gs|) ==> HasTime(gs, |gs|, o.time)
  {
    UnionSize(gs, |gs|);
    UnionTimes(gs, |gs|);
    forall j, kind | 0 <= j < |gs|
      ensures Union(gs, |gs|)[Obs(gs[j].time, kind)] == gs[j].Of(kind)
    {
      UnionCounts(gs, |gs|, j, kind);
    }
  }

  /** The grouping is a function of the multiset. */
  lemma GroupsUnique(gs: seq<Group>, hs: seq<Group>, m: multiset<Obs>)
    requires Groups(gs, m) && Groups(hs, m)
    ensures gs == hs
  {
    GroupsNoMore(gs, hs, m, |gs|);
    GroupsNoMore(hs, gs, m, |hs|);
  }

  lemma {:induction false} GroupsNoMore(gs: seq<Group>, hs: seq<Group>, m: multiset<Obs>, n: nat)
    requires Groups(gs, m) && Groups(hs, m) && n <= |gs|
    ensures n <= |hs| && forall k :: 0 <= k < n ==> gs[k] == hs[k]
  {
    if n > 0 {
      GroupsNoMore(gs, hs, m, n - 1);
      OrderedAll(gs, |gs|);
      OrderedAll(hs, |hs|);
      var j := Find(gs, n - 1, hs, m);
      var i := Find(hs, n - 1, gs, m);
    }
  }

  lemma Find(gs: seq<Group>, k: nat, hs: seq<Group>, m: multiset<Obs>) returns (j: nat)
    requires Groups(gs, m) && Groups(hs, m) && k < |gs|
    ensures j < |hs| && hs[j] == gs[k]
  {
    var g := gs[k];
    OrderedAll(gs, |gs|);
    UnionHas(gs);
    UnionHas(hs);
    var kind := if g.completions > 0 then Completion else if g.errors > 0 then Error else Censored;
    assert g.Of(kind) > 0 && Obs(g.time, kind) in m;
    j :| 0 <= j < |hs| && hs[j].time == g.time;
    assert forall o :: m[Obs(g.time, o)] == hs[j].Of(o) == g.Of(o);
    assert hs[j].Of(Completion) == g.completions && hs[j].Of(Error) == g.errors && hs[j].Of(Censored) == g.waiting;
  }

  // ----- the estimator

  /** The loop's state: the curve so far, and survival and incidence there. */
  datatype State = State(points: seq<Point>, censored: nat, survival: real, incidence: real)

  /** The loop's state once the first k groups, of n observations in all, are behind it. */
  function After(gs: seq<Group>, k: nat, n: nat): State
    requires k <= |gs| && Ordered(gs, k) && Size(gs, k) <= n
  {
    if k == 0 then State([], 0, 1.0, 0.0) else StepGroup(After(gs, k - 1, n), gs[k - 1], n - Size(gs, k - 1))
  }

  function StepGroup(st: State, g: Group, atRisk: nat): State
    requires atRisk > 0
  {
    var cif := Reach(st.incidence, st.survival, g.completions, atRisk);
    State(if g.completions > 0 then st.points + [Point(g.time, cif, atRisk, g.completions, g.errors)] else st.points,
          st.censored + g.waiting, Survive(st.survival, g.completions + g.errors, atRisk), cif)
  }

  function CurveOf(gs: seq<Group>, horizon: int): Curve
    requires Ordered(gs, |gs|)
  {
    var n := Size(gs, |gs|);
    var st := After(gs, |gs|, n);
    Curve(n, st.points, st.censored, if n == 0 then 0.0 else st.survival, horizon)
  }

  function Key(): Obs -> int { (o: Obs) => 2 * o.time + (if o.kind.Censored? then 1 else 0) }

  ghost predicate Rising(s: seq<Obs>, n: nat)
    requires n <= |s|
  {
    n > 1 ==> Rising(s, n - 1) && s[n - 2].time <= s[n - 1].time
  }

  lemma {:induction false} RisingAt(s: seq<Obs>, n: nat, i: nat)
    requires 0 < i < n <= |s| && Rising(s, n)
    ensures s[i - 1].time <= s[i].time
  {
    if i < n - 1 {
      RisingAt(s, n - 1, i);
    }
  }

  lemma {:induction false} AscendingRises(s: seq<Obs>, n: nat)
    requires n <= |s| && Ascending(s, Key())
    ensures Rising(s, n)
  {
    if n > 1 {
      AscendingRises(s, n - 1);
      assert Key()(s[n - 2]) <= Key()(s[n - 1]);
    }
  }

  method SortByTime(obs: seq<Obs>) returns (sorted: seq<Obs>)
    ensures multiset(sorted) == multiset(obs) && |sorted| == |obs| && Rising(sorted, |sorted|)
  {
    sorted := Sort(obs, Key());
    SortSorts(obs, Key());
    assert |multiset(sorted)| == |multiset(obs)|;
    AscendingRises(sorted, |sorted|);
  }

  /** The observations of s from i to j. */
  ghost function Bag(s: seq<Obs>, i: nat, j: nat): multiset<Obs>
    requires i <= j <= |s|
  {
    if i == j then multiset{} else Bag(s, i, j - 1) + multiset{s[j - 1]}
  }

  lemma {:induction false} BagSplit(s: seq<Obs>, i: nat, j: nat, k: nat)
    requires i <= j <= k <= |s|
    ensures Bag(s, i, k) == Bag(s, i, j) + Bag(s, j, k)
  {
    if j < k {
      BagSplit(s, i, j, k - 1);
    }
  }

  lemma PrefixBag(s: seq<Obs>, n: nat)
    requires 0 < n <= |s|
    ensures multiset(s[..n]) == multiset(s[..n - 1]) + multiset{s[n - 1]}
  {
    assert s[..n] == s[..n - 1] + [s[n - 1]];
  }

  lemma {:induction false} BagIs(s: seq<Obs>, n: nat)
    requires n <= |s|
    ensures Bag(s, 0, n) == multiset(s[..n])
  {
    if n > 0 {
      BagIs(s, n - 1);
      PrefixBag(s, n);
    }
  }

  lemma BagAll(s: seq<Obs>)
    ensures Bag(s, 0, |s|) == multiset(s)
  {
    BagIs(s, |s|);
    assert s[..|s|] == s;
  }

  /** The curve of the observations' groups: whatever their order, and however ties are sorted. */
  method EstimateIncidence(obs: seq<Obs>, horizon: int) returns (curve: Curve)
    ensures exists gs :: Groups(gs, multiset(obs)) && curve == CurveOf(gs, horizon)
  {
    ghost var gs: seq<Group> := [];
    if |obs| == 0 {
      assert obs == [] && Groups(gs, multiset(obs));
      return Curve(0, [], 0, 0.0, horizon);
    }
    var sorted := SortByTime(obs);
    var n := |sorted|;
    var atRisk, i, st := n, 0, State([], 0, 1.0, 0.0);
    while i < n
      invariant atRisk == n - i && Progress(gs, sorted, i, st)
      decreases n - i
    {
      var g, next := TiedFrom(sorted, i);
      ProgressMore(gs, sorted, i, st, g, next, atRisk);
      gs := gs + [g];
      st := Pass(st, g, atRisk);
      atRisk, i := atRisk - g.Size(), next;
    }
    AllPassed(obs, sorted, gs, st, horizon);
    return Curve(n, st.points, st.censored, st.survival, horizon);
  }

  /** One group's updates of the curve. */
  method Pass(st: State, g: Group, atRisk: nat) returns (after: State)
    requires atRisk > 0
    ensures after == StepGroup(st, g, atRisk)
  {
    var points, s, cif := st.points, st.survival, st.incidence;
    if g.completions > 0 {
      cif := cif + Share(s, g.completions, atRisk);
      points := points + [Point(g.time, cif, atRisk, g.completions, g.errors)];
    }
    if g.completions + g.errors > 0 {
      s := Survive(s, g.completions + g.errors, atRisk);
    }
    return State(points, st.censored + g.waiting, s, cif);
  }

  ghost predicate LaterThan(gs: seq<Group>, sorted: seq<Obs>, i: nat) {
    gs != [] && i < |sorted| ==> gs[|gs| - 1].time < sorted[i].time
  }

  /** gs groups the first i observations, and st is the loop's state there. */
  ghost predicate Progress(gs: seq<Group>, sorted: seq<Obs>, i: nat, st: State) {
    && i <= |sorted| && Groups(gs, Bag(sorted, 0, i)) && Size(gs, |gs|) == i && LaterThan(gs, sorted, i)
    && st == After(gs, |gs|, |sorted|)
  }

  lemma AllPassed(obs: seq<Obs>, sorted: seq<Obs>, gs: seq<Group>, st: State, horizon: int)
    requires Progress(gs, sorted, |sorted|, st) && multiset(sorted) == multiset(obs) && sorted != []
    ensures Groups(gs, multiset(obs))
    ensures Curve(|sorted|, st.points, st.censored, st.survival, horizon) == CurveOf(gs, horizon)
  {
    BagAll(sorted);
  }

  lemma ProgressMore(gs: seq<Group>, sorted: seq<Obs>, i: nat, st: State, g: Group, next: nat, atRisk: nat)
    requires i < next <= |sorted| && Progress(gs, sorted, i, st) && atRisk == |sorted| - i
    requires Bag(sorted, i, next) == g.Whole() && g.time == sorted[i].time && g.Size() == next - i
    requires LaterThan([g], sorted, next)
    ensures Progress(gs + [g], sorted, next, StepGroup(st, g, atRisk))
  {
    var hs, k := gs + [g], |gs|;
    BagSplit(sorted, 0, i, next);
    PrefixSame(gs, hs, k, |sorted|);
    assert hs[k] == g && Ordered(hs, k + 1) && Size(hs, k + 1) == next;
    AfterUnfold(hs, k, |sorted|, st, g, atRisk);
  }

  lemma AfterUnfold(gs: seq<Group>, k: nat, n: nat, st: State, g: Group, atRisk: nat)
    requires k < |gs| && Ordered(gs, k + 1) && Size(gs, k + 1) <= n
    requires st == After(gs, k, n) && g == gs[k] && atRisk == n - Size(gs, k)
    ensures atRisk > 0 && After(gs, k + 1, n) == StepGroup(st, g, atRisk)
  {
  }

  lemma {:induction false} PrefixSame(gs: seq<Group>, hs: seq<Group>, k: nat, n: nat)
    requires k <= |gs| && k <= |hs| && forall j :: 0 <= j < k ==> gs[j] == hs[j]
    requires Ordered(gs, k) && Size(gs, k) <= n
    ensures Ordered(hs, k) && Size(hs, k) == Size(gs, k) && Union(hs, k) == Union(gs, k)
    ensures After(hs, k, n) == After(gs, k, n)
  {
    if k > 0 {
      PrefixSame(gs, hs, k - 1, n);
    }
  }

  /** The observations tied with the one at from, and where the next time begins. */
  method TiedFrom(sorted: seq<Obs>, from: nat) returns (g: Group, i: nat)
    requires from < |sorted| && Rising(sorted, |sorted|)
    ensures from < i <= |sorted| && Bag(sorted, from, i) == g.Whole() && g.Size() == i - from
    ensures g.time == sorted[from].time && LaterThan([g], sorted, i)
  {
    i, g := from, Group(sorted[from].time, 0, 0, 0);
    while i < |sorted| && sorted[i].time == g.time
      invariant from <= i <= |sorted| && g.time == sorted[from].time && g.Size() == i - from
      invariant i > from ==> sorted[i - 1].time == g.time
      invariant Bag(sorted, from, i) == g.Whole()
    {
      PlusWhole(g, sorted[i].kind);
      g := g.Plus(sorted[i].kind);
      i := i + 1;
    }
    LaterNext(sorted, i, g);
  }

  lemma LaterNext(sorted: seq<Obs>, i: nat, g: Group)
    requires 0 < i <= |sorted| && Rising(sorted, |sorted|) && sorted[i - 1].time == g.time
    requires i < |sorted| ==> sorted[i].time != g.time
    ensures LaterThan([g], sorted, i)
  {
    if i < |sorted| {
      RisingAt(sorted, |sorted|, i);
    }
  }

  // ----- mass

  /** The same observations with completions and errors exchanged. */
  function Swapped(gs: seq<Group>): seq<Group> {
    seq(|gs|, k requires 0 <= k < |gs| => Group(gs[k].time, gs[k].errors, gs[k].completions, gs[k].waiting))
  }

  /** At every group, survival and the two kinds' incidences sum to one. */
  lemma {:induction false} MassIsOne(gs: seq<Group>, k: nat, n: nat)
    requires k <= |gs| && Ordered(gs, k) && Size(gs, k) <= n
    ensures Ordered(Swapped(gs), k) && Size(Swapped(gs), k) == Size(gs, k)
    ensures After(Swapped(gs), k, n).survival == After(gs, k, n).survival
    ensures After(gs, k, n).survival + After(gs, k, n).incidence + After(Swapped(gs), k, n).incidence == 1.0
  {
    if k > 0 {
      MassIsOne(gs, k - 1, n);
      var st, err, g := After(gs, k - 1, n), After(Swapped(gs), k - 1, n), gs[k - 1];
      GroupMass(st.survival, st.incidence, err.incidence, g.completions, g.errors, n - Size(gs, k - 1));
    }
  }

  lemma {:induction false} FinalIs(gs: seq<Group>, k: nat, n: nat)
    requires k <= |gs| && Ordered(gs, k) && Size(gs, k) <= n
    ensures var st := After(gs, k, n);
      st.incidence == if st.points == [] then 0.0 else st.points[|st.points| - 1].incidence
  {
    if k > 0 {
      FinalIs(gs, k - 1, n);
    }
  }

  /** What the curve ends with: completed, errored and surviving make up the whole. */
  lemma CurveMass(gs: seq<Group>, horizon: int)
    requires Ordered(gs, |gs|) && gs != []
    ensures Ordered(Swapped(gs), |gs|)
    ensures CurveOf(gs, horizon).FinalIncidence() + CurveOf(Swapped(gs), horizon).FinalIncidence()
          + CurveOf(gs, horizon).finalSurvival == 1.0
  {
    MassIsOne(gs, |gs|, Size(gs, |gs|));
    CurveEnds(gs, horizon);
    CurveEnds(Swapped(gs), horizon);
  }

  lemma CurveEnds(gs: seq<Group>, horizon: int)
    requires Ordered(gs, |gs|) && gs != []
    ensures CurveOf(gs, horizon).FinalIncidence() == After(gs, |gs|, Size(gs, |gs|)).incidence
    ensures CurveOf(gs, horizon).finalSurvival == After(gs, |gs|, Size(gs, |gs|)).survival
  {
    FinalIs(gs, |gs|, Size(gs, |gs|));
  }

  // ----- the curve's shape

  /** Points rise strictly, in time and in incidence, to a last time and incidence. */
  ghost predicate Climbs(points: seq<Point>, last: int, final: real) {
    && (forall k :: 0 <= k < |points| ==> points[k].time <= last && 0.0 < points[k].incidence <= final)
    && forall j, k :: 0 <= j < k < |points| ==>
         points[j].time < points[k].time && points[j].incidence < points[k].incidence
  }

  /** The estimate stays one of a probability, and survives while anyone is at risk. */
  lemma {:induction false} Shape(gs: seq<Group>, k: nat, n: nat)
    requires k <= |gs| && Ordered(gs, k) && Size(gs, k) <= n
    ensures var st := After(gs, k, n);
      && st.survival >= 0.0 && (Size(gs, k) < n ==> st.survival > 0.0)
      && st.incidence >= 0.0 && st.incidence + st.survival <= 1.0
      && (k == 0 ==> st.points == []) && (k > 0 ==> Climbs(st.points, gs[k - 1].time, st.incidence))
  {
    if k > 0 {
      Shape(gs, k - 1, n);
      var st, g, r := After(gs, k - 1, n), gs[k - 1], n - Size(gs, k - 1);
      AfterUnfold(gs, k - 1, n, st, g, r);
      ShapeStep(st, g, r);
    }
  }

  lemma ShapeStep(st: State, g: Group, r: nat)
    requires g.Size() <= r && 0 < r && st.survival > 0.0 && st.incidence >= 0.0 && st.incidence + st.survival <= 1.0
    requires Climbs(st.points, g.time - 1, st.incidence)
    ensures var after := StepGroup(st, g, r);
      && after.survival >= 0.0 && (g.Size() < r ==> after.survival > 0.0)
      && after.incidence >= 0.0 && after.incidence + after.survival <= 1.0
      && Climbs(after.points, g.time, after.incidence)
  {
    GroupSigns(st.survival, st.incidence, g.completions, g.errors, r);
    GroupSigns(st.survival, 0.0, g.errors, g.completions, r);
    GroupMass(st.survival, st.incidence, 0.0, g.completions, g.errors, r);
  }

  lemma CurveShape(gs: seq<Group>, horizon: int)
    requires Ordered(gs, |gs|) && gs != []
    ensures var c := CurveOf(gs, horizon);
      && Climbs(c.points, gs[|gs| - 1].time, c.FinalIncidence())
      && c.FinalIncidence() <= c.Ceiling() <= 1.0
  {
    var n := Size(gs, |gs|);
    Shape(gs, |gs|, n);
    FinalIs(gs, |gs|, n);
  }

  // ----- the ceiling

  /** A further time at which some of those still at risk end. */
  datatype Later = Later(completions: nat, errors: nat, atRisk: nat)

  ghost predicate Possible(l: Later) { l.atRisk > 0 && l.completions + l.errors <= l.atRisk }

  /** Incidence after further times, from some survival and incidence. */
  ghost function Continue(s: real, cif: real, later: seq<Later>): real
    requires forall l :: l in later ==> Possible(l)
    decreases |later|
  {
    if later == [] then cif else
    var l := later[0];
    assert Possible(l);
    Continue(Survive(s, l.completions + l.errors, l.atRisk), Reach(cif, s, l.completions, l.atRisk), later[1..])
  }

  /** However the recurrence goes on, incidence never passes survival and incidence now. */
  lemma {:induction false} ContinueBound(s: real, cif: real, later: seq<Later>)
    requires s >= 0.0 && forall l :: l in later ==> Possible(l)
    ensures cif <= Continue(s, cif, later) <= cif + s
    decreases |later|
  {
    if later != [] {
      var l := later[0];
      assert Possible(l);
      GroupMass(s, cif, 0.0, l.completions, l.errors, l.atRisk);
      GroupNonneg(s, cif, l.completions, l.errors, l.atRisk);
      GroupNonneg(s, 0.0, l.errors, l.completions, l.atRisk);
      ContinueBound(Survive(s, l.completions + l.errors, l.atRisk), Reach(cif, s, l.completions, l.atRisk), later[1..]);
    }
  }

  lemma GroupNonneg(s: real, cif: real, d: nat, e: nat, n: nat)
    requires s >= 0.0 && d + e <= n && 0 < n
    ensures Survive(s, d + e, n) >= 0.0 && Reach(cif, s, d, n) >= cif
  {
    if s > 0.0 {
      GroupSigns(s, cif, d, e, n);
    }
  }

  /** The ceiling is exactly the least upper bound: no continuation of the curve passes it, and one reaches it. */
  lemma CeilingIsSharp(gs: seq<Group>, horizon: int, later: seq<Later>)
    requires Ordered(gs, |gs|) && gs != [] && forall l :: l in later ==> Possible(l)
    ensures var c := CurveOf(gs, horizon);
      Continue(c.finalSurvival, c.FinalIncidence(), later) <= c.Ceiling()
    ensures var c, all := CurveOf(gs, horizon), [Later(1, 0, 1)];
      (forall l :: l in all ==> Possible(l)) && Continue(c.finalSurvival, c.FinalIncidence(), all) == c.Ceiling()
  {
    var c := CurveOf(gs, horizon);
    Shape(gs, |gs|, Size(gs, |gs|));
    ContinueBound(c.finalSurvival, c.FinalIncidence(), later);
    LastReaches(c.finalSurvival, c.FinalIncidence());
  }

  lemma LastReaches(s: real, cif: real)
    ensures (forall l :: l in [Later(1, 0, 1)] ==> Possible(l)) && Continue(s, cif, [Later(1, 0, 1)]) == cif + s
  {
    var all := [Later(1, 0, 1)];
    FracBounds(1, 1);
    assert Reach(cif, s, 1, 1) == cif + s;
    assert all[1..] == [];
  }

  // ----- incidence at a time

  /** The incidence of the last point no later than t. */
  function IncidenceBy(points: seq<Point>, t: int): real {
    if points == [] then 0.0
    else if points[|points| - 1].time <= t then points[|points| - 1].incidence
    else IncidenceBy(points[..|points| - 1], t)
  }

  method IncidenceAt(c: Curve, t: int) returns (cif: real)
    requires forall j, k :: 0 <= j < k < |c.points| ==> c.points[j].time < c.points[k].time
    ensures cif == IncidenceBy(c.points, t)
  {
    cif := 0.0;
    for k := 0 to |c.points|
      invariant cif == IncidenceBy(c.points[..k], t)
    {
      assert c.points[..k + 1][..k] == c.points[..k];
      if c.points[k].time > t {
        LaterPoints(c.points, k, |c.points|, t);
        assert c.points[..|c.points|] == c.points;
        break;
      }
      cif := c.points[k].incidence;
    }
    assert c.points[..|c.points|] == c.points;
  }

  lemma {:induction false} LaterPoints(points: seq<Point>, k: nat, n: nat, t: int)
    requires k <= n <= |points| && forall j :: k <= j < n ==> points[j].time > t
    ensures IncidenceBy(points[..n], t) == IncidenceBy(points[..k], t)
  {
    if k < n {
      assert points[..n][..n - 1] == points[..n - 1];
      LaterPoints(points, k, n - 1, t);
    }
  }

  /** How many of the first k groups are no later than t. */
  function By(gs: seq<Group>, k: nat, t: int): (j: nat)
    requires k <= |gs|
    ensures j <= k
  {
    if k == 0 || gs[k - 1].time <= t then k else By(gs, k - 1, t)
  }

  lemma {:induction false} ByFits(gs: seq<Group>, k: nat, t: int)
    requires k <= |gs| && Ordered(gs, k)
    ensures Ordered(gs, By(gs, k, t)) && Size(gs, By(gs, k, t)) <= Size(gs, k)
  {
    if k > 0 && gs[k - 1].time > t {
      ByFits(gs, k - 1, t);
    }
  }

  /** The incidence at t is what the groups by t made it. */
  lemma {:induction false} IncidenceIs(gs: seq<Group>, k: nat, n: nat, t: int)
    requires k <= |gs| && Ordered(gs, k) && Size(gs, k) <= n
    ensures Ordered(gs, By(gs, k, t)) && Size(gs, By(gs, k, t)) <= n
    ensures IncidenceBy(After(gs, k, n).points, t) == After(gs, By(gs, k, t), n).incidence
  {
    ByFits(gs, k, t);
    if k > 0 {
      if gs[k - 1].time <= t {
        FinalIs(gs, k, n);
        Shape(gs, k, n);
      } else {
        IncidenceIs(gs, k - 1, n, t);
        var points := After(gs, k, n).points;
        if gs[k - 1].completions > 0 {
          assert points[..|points| - 1] == After(gs, k - 1, n).points;
        }
      }
    }
  }

  // ----- without censoring, and without errors

  function Completions(gs: seq<Group>, k: nat): nat
    requires k <= |gs|
  {
    if k == 0 then 0 else Completions(gs, k - 1) + gs[k - 1].completions
  }

  lemma ShareOfRest(r: nat, d: nat, n: nat)
    requires 0 < r && 0 < n
    ensures Frac(r, n) * Frac(d, r) == Frac(d, n)
  {
    Cancel(r as real, d as real, n as real);
  }

  lemma Cancel(r: real, d: real, n: real)
    requires r > 0.0 && n > 0.0
    ensures (r / n) * (d / r) == d / n
  {
    var x, y := r / n, d / r;
    assert x * n == r && y * r == d;
    assert (x * y) * n == y * (x * n);
  }

  /** Where nothing is censored, survival is the fraction left and incidence the fraction completed. */
  lemma {:induction false} Uncensored(gs: seq<Group>, k: nat, n: nat)
    requires k <= |gs| && Ordered(gs, k) && Size(gs, k) <= n && n > 0 && forall j :: 0 <= j < k ==> gs[j].waiting == 0
    ensures After(gs, k, n).survival == Frac(n - Size(gs, k), n)
    ensures After(gs, k, n).incidence == Frac(Completions(gs, k), n)
  {
    if k == 0 {
      FracBounds(n, n);
      FracBounds(0, n);
    } else {
      Uncensored(gs, k - 1, n);
      UncensoredStep(n, Completions(gs, k - 1), n - Size(gs, k - 1), gs[k - 1].completions, gs[k - 1].errors);
    }
  }

  lemma UncensoredStep(n: nat, done: nat, r: nat, d: nat, e: nat)
    requires 0 < n && d + e <= r && 0 < r
    ensures Survive(Frac(r, n), d + e, r) == Frac(r - (d + e), n)
    ensures Reach(Frac(done, n), Frac(r, n), d, r) == Frac(done + d, n)
  {
    ShareOfRest(r, d, n);
    ShareOfRest(r, d + e, n);
    FracAdd(done, d, n);
    FracAdd(r - (d + e), d + e, n);
    Expand(Frac(r, n), Frac(d + e, r));
  }

  lemma Expand(x: real, y: real)
    ensures x * (1.0 - y) == x - x * y
  {
  }

  /** How many observations completed by t. */
  function CompletedBy(obs: seq<Obs>, t: int): nat {
    if obs == [] then 0 else
    var o := obs[|obs| - 1];
    CompletedBy(obs[..|obs| - 1], t) + (if o.kind.Completion? && o.time <= t then 1 else 0)
  }

  /** The same, counted in m at the first k groups' times. */
  ghost function CountedBy(gs: seq<Group>, k: nat, m: multiset<Obs>, t: int): nat
    requires k <= |gs|
  {
    if k == 0 then 0 else
    CountedBy(gs, k - 1, m, t) + (if gs[k - 1].time <= t then m[Obs(gs[k - 1].time, Completion)] else 0)
  }

  lemma {:induction false} CountedMore(gs: seq<Group>, k: nat, m: multiset<Obs>, o: Obs, t: int)
    requires k <= |gs| && Ordered(gs, k)
    ensures CountedBy(gs, k, m + multiset{o}, t)
         == CountedBy(gs, k, m, t) + (if HasTime(gs, k, o.time) && o.kind.Completion? && o.time <= t then 1 else 0)
  {
    if k > 0 {
      CountedMore(gs, k - 1, m, o, t);
      OrderedAll(gs, k);
      assert HasTime(gs, k, o.time) <==> HasTime(gs, k - 1, o.time) || o.time == gs[k - 1].time;
    }
  }

  lemma {:induction false} CountedNone(gs: seq<Group>, k: nat, t: int)
    requires k <= |gs|
    ensures CountedBy(gs, k, multiset{}, t) == 0
  {
    if k > 0 {
      CountedNone(gs, k - 1, t);
    }
  }

  lemma {:induction false} CountedIs(gs: seq<Group>, obs: seq<Obs>, t: int)
    requires Ordered(gs, |gs|) && forall o :: o in obs ==> HasTime(gs, |gs|, o.time)
    ensures CountedBy(gs, |gs|, multiset(obs), t) == CompletedBy(obs, t)
  {
    if obs == [] {
      CountedNone(gs, |gs|, t);
    } else {
      var before, o := obs[..|obs| - 1], obs[|obs| - 1];
      CountedIs(gs, before, t);
      assert obs == before + [o];
      assert o in obs;
      CountedMore(gs, |gs|, multiset(before), o, t);
    }
  }

  lemma {:induction false} CompletionsBy(gs: seq<Group>, k: nat, m: multiset<Obs>, t: int)
    requires k <= |gs| && Ordered(gs, k)
    requires forall j :: 0 <= j < k ==> m[Obs(gs[j].time, Completion)] == gs[j].completions
    ensures CountedBy(gs, k, m, t) == Completions(gs, By(gs, k, t))
  {
    if k > 0 {
      CompletionsBy(gs, k - 1, m, t);
      if k > 1 && gs[k - 1].time <= t {
        assert By(gs, k - 1, t) == k - 1;
      }
    }
  }

  /** Without censoring, the incidence at t is the fraction of all observations completed by t. */
  lemma UncensoredIncidence(gs: seq<Group>, obs: seq<Obs>, horizon: int, t: int)
    requires Groups(gs, multiset(obs)) && obs != [] && forall o :: o in obs ==> !o.kind.Censored?
    ensures IncidenceBy(CurveOf(gs, horizon).points, t) == Frac(CompletedBy(obs, t), |obs|)
  {
    var m, n, k := multiset(obs), |obs|, |gs|;
    UnionHas(gs);
    IncidenceIs(gs, k, n, t);
    forall j | 0 <= j < k
      ensures gs[j].waiting == 0 && m[Obs(gs[j].time, Completion)] == gs[j].completions
    {
      assert m[Obs(gs[j].time, Censored)] == gs[j].Of(Censored);
      assert m[Obs(gs[j].time, Completion)] == gs[j].Of(Completion);
    }
    Uncensored(gs, By(gs, k, t), n);
    CountedIs(gs, obs, t);
    CompletionsBy(gs, k, m, t);
  }

  /** The Kaplan-Meier survival estimate: at each time, the fraction of those at risk who do not complete. */
  function KaplanMeier(gs: seq<Group>, k: nat, n: nat): real
    requires k <= |gs| && Ordered(gs, k) && Size(gs, k) <= n
  {
    if k == 0 then 1.0 else Left(KaplanMeier(gs, k - 1, n), gs[k - 1].completions, n - Size(gs, k - 1))
  }

  lemma {:induction false} WithoutErrors(gs: seq<Group>, k: nat, n: nat)
    requires k <= |gs| && Ordered(gs, k) && Size(gs, k) <= n && forall j :: 0 <= j < k ==> gs[j].errors == 0
    ensures After(gs, k, n).survival == KaplanMeier(gs, k, n)
    ensures After(gs, k, n).incidence == 1.0 - KaplanMeier(gs, k, n)
  {
    if k > 0 {
      WithoutErrors(gs, k - 1, n);
      var st, g, r := After(gs, k - 1, n), gs[k - 1], n - Size(gs, k - 1);
      AfterUnfold(gs, k - 1, n, st, g, r);
      WithoutErrorsStep(st, g, r, KaplanMeier(gs, k - 1, n));
    }
  }

  lemma WithoutErrorsStep(st: State, g: Group, r: nat, s: real)
    requires 0 < r && st.survival == s && st.incidence == 1.0 - s && g.errors == 0
    ensures StepGroup(st, g, r).survival == Left(s, g.completions, r)
    ensures StepGroup(st, g, r).incidence == 1.0 - Left(s, g.completions, r)
  {
    assert g.completions + g.errors == g.completions;
    FracZero(r);
    Expand(s, Frac(g.completions, r));
  }

  lemma FracZero(n: nat)
    requires 0 < n
    ensures Frac(0, n) == 0.0
  {
  }

  /** Without errors, the incidence at t is one minus the Kaplan-Meier estimate there. */
  lemma ReducesToKaplanMeier(gs: seq<Group>, horizon: int, t: int)
    requires Ordered(gs, |gs|) && forall k :: 0 <= k < |gs| ==> gs[k].errors == 0
    ensures var k, n := By(gs, |gs|, t), Size(gs, |gs|);
      Ordered(gs, k) && Size(gs, k) <= n && IncidenceBy(CurveOf(gs, horizon).points, t) == 1.0 - KaplanMeier(gs, k, n)
  {
    var n := Size(gs, |gs|);
    IncidenceIs(gs, |gs|, n, t);
    WithoutErrors(gs, By(gs, |gs|, t), n);
  }

  // ----- quantiles

  const EPS := 0.000000001

  ghost predicate Crosses(c: Curve, k: nat, q: real) {
    k < |c.points| && c.points[k].incidence >= q - EPS && c.points[k].time <= c.horizon
  }

  /** The smallest time within the horizon whose incidence reaches q. */
  method Quantile(c: Curve, q: real) returns (t: Option<int>)
    requires 0.0 < q <= 1.0
    ensures IsQuantile(c, q, t)
  {
    for k := 0 to |c.points|
      invariant forall j :: 0 <= j < k ==> !Crosses(c, j, q)
    {
      var p := c.points[k];
      if p.incidence >= q - EPS && p.time <= c.horizon {
        assert Crosses(c, k, q);
        return Some(p.time);
      }
    }
    return None;
  }

  ghost predicate IsQuantile(c: Curve, q: real, t: Option<int>) {
    match t
    case None => forall k :: 0 <= k < |c.points| ==> !Crosses(c, k, q)
    case Some(u) => exists k: nat :: Crosses(c, k, q) && c.points[k].time == u && forall j :: 0 <= j < k ==> !Crosses(c, j, q)
  }

  /** A higher quantile is no earlier, and is refused wherever a lower one is. */
  lemma QuantileMonotone(gs: seq<Group>, horizon: int, low: real, high: real, t: Option<int>, u: Option<int>)
    requires Ordered(gs, |gs|) && low <= high
    requires IsQuantile(CurveOf(gs, horizon), low, t) && IsQuantile(CurveOf(gs, horizon), high, u)
    ensures u.Some? ==> t.Some? && t.value <= u.value
  {
    var c := CurveOf(gs, horizon);
    Shape(gs, |gs|, Size(gs, |gs|));
    if u.Some? {
      var k: nat :| Crosses(c, k, high) && c.points[k].time == u.value;
      assert Crosses(c, k, low);
      var j: nat :| Crosses(c, j, low) && c.points[j].time == t.value && forall i :: 0 <= i < j ==> !Crosses(c, i, low);
      assert j <= k;
    }
  }

  /** A quantile is the first time by which the incidence reaches it, and is refused past the ceiling. */
  lemma QuantileInverts(gs: seq<Group>, horizon: int, q: real, t: Option<int>)
    requires Ordered(gs, |gs|) && gs != [] && IsQuantile(CurveOf(gs, horizon), q, t)
    ensures var c := CurveOf(gs, horizon);
      && (q - 0.000000001 > c.Ceiling() ==> t.None?)
      && (q > 0.000000001 ==> forall u :: u <= horizon ==>
            (IncidenceBy(c.points, u) >= q - 0.000000001 <==> t.Some? && t.value <= u))
  {
    var c := CurveOf(gs, horizon);
    CurveShape(gs, horizon);
    forall u | u <= horizon && q > EPS
      ensures IncidenceBy(c.points, u) >= q - EPS <==> t.Some? && t.value <= u
    {
      var k := LastBy(c.points, u);
      if k > 0 && t.None? {
        assert !Crosses(c, k - 1, q);
      }
      if t.Some? {
        var j: nat :| Crosses(c, j, q) && c.points[j].time == t.value && forall i :: 0 <= i < j ==> !Crosses(c, i, q);
        assert k > 0 && k - 1 < j ==> !Crosses(c, k - 1, q);
      }
    }
  }

  /** How many points are no later than t, and so the incidence at t. */
  lemma {:induction false} LastBy(points: seq<Point>, t: int) returns (k: nat)
    requires forall i, j :: 0 <= i < j < |points| ==> points[i].time < points[j].time
    ensures k <= |points| && IncidenceBy(points, t) == if k == 0 then 0.0 else points[k - 1].incidence
    ensures forall j :: 0 <= j < |points| ==> (points[j].time <= t <==> j < k)
  {
    if points == [] || points[|points| - 1].time <= t {
      k := |points|;
    } else {
      k := LastBy(points[..|points| - 1], t);
    }
  }
}
