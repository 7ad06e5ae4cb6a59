// What a curve's counts are of the observations (internal/collect/incidence.go): each
// point's events and errors are those at its time, and its number at risk all no earlier.
module IncidenceMeaning {
  import opened Prelude
  import opened Incidence

  function CountObs(obs: seq<Obs>, p: Obs -> bool): nat {
    if obs == [] then 0 else CountObs(obs[..|obs| - 1], p) + (if p(obs[|obs| - 1]) then 1 else 0)
  }

  /** The observations no earlier than t. */
  function AtRisk(obs: seq<Obs>, t: int): nat { CountObs(obs, NoEarlier(t)) }

  function NoEarlier(t: int): Obs -> bool { (o: Obs) => o.time >= t }

  function Waiting(obs: seq<Obs>): nat { CountObs(obs, IsCensored()) }

  function IsCensored(): Obs -> bool { (o: Obs) => o.kind == Censored }

  // ----- counting by groups

  function CountAt(m: multiset<Obs>, o: Obs, p: Obs -> bool): nat { if p(o) then m[o] else 0 }

  /** How many of m at one time pass a test. */
  function CountTime(m: multiset<Obs>, t: int, p: Obs -> bool): nat {
    CountAt(m, Obs(t, Completion), p) + CountAt(m, Obs(t, Error), p) + CountAt(m, Obs(t, Censored), p)
  }

  /** And at the first k groups' times. */
  function CountGroups(gs: seq<Group>, k: nat, m: multiset<Obs>, p: Obs -> bool): nat
    requires k <= |gs|
  {
    if k == 0 then 0 else CountGroups(gs, k - 1, m, p) + CountTime(m, gs[k - 1].time, p)
  }

  lemma TimeMore(m: multiset<Obs>, t: int, o: Obs, p: Obs -> bool)
    ensures CountTime(m + multiset{o}, t, p) == CountTime(m, t, p) + (if o.time == t && p(o) then 1 else 0)
  {
    match o.kind
    case Completion => assert o.time == t ==> o == Obs(t, Completion);
    case Error => assert o.time == t ==> o == Obs(t, Error);
    case Censored => assert o.time == t ==> o == Obs(t, Censored);
  }

  lemma {:induction false} GroupsMore(gs: seq<Group>, k: nat, m: multiset<Obs>, o: Obs, p: Obs -> bool)
    requires k <= |gs| && Ordered(gs, k)
    ensures CountGroups(gs, k, m + multiset{o}, p)
         == CountGroups(gs, k, m, p) + (if HasTime(gs, k, o.time) && p(o) then 1 else 0)
  {
    if k > 0 {
      GroupsMore(gs, k - 1, m, o, p);
      TimeMore(m, gs[k - 1].time, o, p);
      OrderedAll(gs, k);
      assert HasTime(gs, k, o.time) <==> HasTime(gs, k - 1, o.time) || o.time == gs[k - 1].time;
    }
  }

  lemma {:induction false} GroupsNone(gs: seq<Group>, k: nat, p: Obs -> bool)
    requires k <= |gs|
    ensures CountGroups(gs, k, multiset{}, p) == 0
  {
    if k > 0 {
      GroupsNone(gs, k - 1, p);
    }
  }

  /** Counted by groups or one by one, the observations are as many. */
  lemma {:induction false} GroupsCount(gs: seq<Group>, obs: seq<Obs>, p: Obs -> bool)
    requires Ordered(gs, |gs|) && forall o :: o in obs ==> HasTime(gs, |gs|, o.time)
    ensures CountGroups(gs, |gs|, multiset(obs), p) == CountObs(obs, p)
  {
    if obs == [] {
      GroupsNone(gs, |gs|, p);
    } else {
      var before, o := obs[..|obs| - 1], obs[|obs| - 1];
      GroupsCount(gs, before, p);
      assert obs == before + [o];
      assert o in obs;
      GroupsMore(gs, |gs|, multiset(before), o, p);
    }
  }

  /** The groups' counts are m's. */
  ghost predicate Tallied(gs: seq<Group>, m: multiset<Obs>) {
    forall j, kind :: 0 <= j < |gs| ==> m[Obs(gs[j].time, kind)] == gs[j].Of(kind)
  }

  lemma TimeAll(gs: seq<Group>, j: nat, m: multiset<Obs>, p: Obs -> bool)
    requires j < |gs| && Tallied(gs, m)
    ensures (forall kind :: p(Obs(gs[j].time, kind))) ==> CountTime(m, gs[j].time, p) == gs[j].Size()
    ensures (forall kind :: !p(Obs(gs[j].time, kind))) ==> CountTime(m, gs[j].time, p) == 0
    ensures (forall kind :: p(Obs(gs[j].time, kind)) <==> kind == Censored) ==> CountTime(m, gs[j].time, p) == gs[j].waiting
  {
    var t := gs[j].time;
    assert m[Obs(t, Completion)] == gs[j].Of(Completion) && m[Obs(t, Error)] == gs[j].Of(Error);
    assert m[Obs(t, Censored)] == gs[j].Of(Censored);
  }

  /** From group j on the groups hold all but the first j groups' observations. */
  lemma {:induction false} LaterGroups(gs: seq<Group>, m: multiset<Obs>, j: nat, k: nat, p: Obs -> bool)
    requires j <= k <= |gs| && Tallied(gs, m) && Ordered(gs, |gs|)
    requires forall i, kind :: 0 <= i < |gs| ==> (p(Obs(gs[i].time, kind)) <==> i >= j)
    ensures CountGroups(gs, k, m, p) == Size(gs, k) - Size(gs, j)
    decreases k
  {
    if k > j {
      LaterGroups(gs, m, j, k - 1, p);
      TimeAll(gs, k - 1, m, p);
    } else {
      EarlierGroups(gs, m, k, p);
    }
  }

  lemma {:induction false} EarlierGroups(gs: seq<Group>, m: multiset<Obs>, k: nat, p: Obs -> bool)
    requires k <= |gs| && Tallied(gs, m) && forall i, kind :: 0 <= i < k ==> !p(Obs(gs[i].time, kind))
    ensures CountGroups(gs, k, m, p) == 0
  {
    if k > 0 {
      EarlierGroups(gs, m, k - 1, p);
      TimeAll(gs, k - 1, m, p);
    }
  }

  /** All but the first j groups' observations are at risk at group j's time. */
  lemma RiskIs(gs: seq<Group>, obs: seq<Obs>, j: nat)
    requires Groups(gs, multiset(obs)) && j < |gs|
    ensures AtRisk(obs, gs[j].time) == Size(gs, |gs|) - Size(gs, j) && Size(gs, |gs|) == |obs|
  {
    var p := NoEarlier(gs[j].time);
    GroupsTallied(gs, obs);
    GroupsCount(gs, obs, p);
    OrderedAll(gs, |gs|);
    LaterGroups(gs, multiset(obs), j, |gs|, p);
  }

  lemma GroupsTallied(gs: seq<Group>, obs: seq<Obs>)
    requires Groups(gs, multiset(obs))
    ensures Tallied(gs, multiset(obs)) && Size(gs, |gs|) == |obs|
    ensures forall o :: o in obs ==> HasTime(gs, |gs|, o.time)
  {
    UnionHas(gs);
    assert forall o :: o in obs ==> o in multiset(obs);
  }

  lemma {:induction false} CensoredGroups(gs: seq<Group>, m: multiset<Obs>, k: nat, n: nat, p: Obs -> bool)
    requires k <= |gs| && Tallied(gs, m) && Ordered(gs, k) && Size(gs, k) <= n
    requires forall t, kind :: p(Obs(t, kind)) <==> kind == Censored
    ensures CountGroups(gs, k, m, p) == After(gs, k, n).censored
  {
    if k > 0 {
      CensoredGroups(gs, m, k - 1, n, p);
      TimeAll(gs, k - 1, m, p);
    }
  }

  // ----- the curve

  /** Point q is of group j. */
  ghost predicate OfGroup(q: Point, gs: seq<Group>, j: nat, n: nat) {
    && j < |gs| && q.time == gs[j].time && q.events == gs[j].completions > 0 && q.errors == gs[j].errors
    && q.atRisk == n - Size(gs, j)
  }

  ghost predicate OfSome(q: Point, gs: seq<Group>, k: nat, n: nat) {
    exists j :: 0 <= j < k && OfGroup(q, gs, j, n)
  }

  ghost predicate HasPoint(points: seq<Point>, t: int) { exists q :: q in points && q.time == t }

  /** Every point is of one of the first k groups with completions, and each of those has one. */
  ghost predicate PointsOf(points: seq<Point>, gs: seq<Group>, k: nat, n: nat)
    requires k <= |gs|
  {
    && (forall q :: q in points ==> OfSome(q, gs, k, n))
    && (forall j :: 0 <= j < k && gs[j].completions > 0 ==> HasPoint(points, gs[j].time))
  }

  lemma {:induction false} PointsAre(gs: seq<Group>, k: nat, n: nat)
    requires k <= |gs| && Ordered(gs, k) && Size(gs, k) <= n
    ensures PointsOf(After(gs, k, n).points, gs, k, n)
  {
    if k > 0 {
      PointsAre(gs, k - 1, n);
      var st, g, r := After(gs, k - 1, n), gs[k - 1], n - Size(gs, k - 1);
      AfterUnfold(gs, k - 1, n, st, g, r);
      PointsStep(gs, k, n, st.points, StepGroup(st, g, r).points, Reach(st.incidence, st.survival, g.completions, r));
    }
  }

  lemma PointsStep(gs: seq<Group>, k: nat, n: nat, was: seq<Point>, now: seq<Point>, cif: real)
    requires 0 < k <= |gs| && Size(gs, k) <= n && PointsOf(was, gs, k - 1, n)
    requires var g := gs[k - 1];
      now == if g.completions > 0 then was + [Point(g.time, cif, n - Size(gs, k - 1), g.completions, g.errors)] else was
    ensures PointsOf(now, gs, k, n)
  {
    forall q | q in now
      ensures OfSome(q, gs, k, n)
    {
      if q in was {
        var j :| 0 <= j < k - 1 && OfGroup(q, gs, j, n);
      } else {
        assert OfGroup(q, gs, k - 1, n);
      }
    }
    forall j | 0 <= j < k && gs[j].completions > 0
      ensures HasPoint(now, gs[j].time)
    {
      if j < k - 1 {
        var q :| q in was && q.time == gs[j].time;
        assert q in now;
      } else {
        assert now[|was|] in now;
      }
    }
  }

  /** A point counts the completions and the errors at its time, and all observations no earlier. */
  ghost predicate Counts(q: Point, obs: seq<Obs>) {
    && q.events == multiset(obs)[Obs(q.time, Completion)] > 0 && q.errors == multiset(obs)[Obs(q.time, Error)]
    && q.atRisk == AtRisk(obs, q.time)
  }

  lemma PointCounts(gs: seq<Group>, obs: seq<Obs>, q: Point, j: nat)
    requires Groups(gs, multiset(obs)) && OfGroup(q, gs, j, |obs|)
    ensures Counts(q, obs)
  {
    GroupsTallied(gs, obs);
    RiskIs(gs, obs, j);
    var m := multiset(obs);
    assert m[Obs(gs[j].time, Completion)] == gs[j].Of(Completion) && m[Obs(gs[j].time, Error)] == gs[j].Of(Error);
  }

  lemma CompletionHasPoint(gs: seq<Group>, obs: seq<Obs>, points: seq<Point>, o: Obs)
    requires Groups(gs, multiset(obs)) && PointsOf(points, gs, |gs|, |obs|) && o in obs && o.kind == Completion
    ensures HasPoint(points, o.time)
  {
    GroupsTallied(gs, obs);
    var j :| 0 <= j < |gs| && gs[j].time == o.time;
    assert o in multiset(obs) && multiset(obs)[Obs(gs[j].time, Completion)] == gs[j].Of(Completion);
  }

  /** A curve counts its observations: all of them, the censored, and at each completion's time,
      where it has its points, the completions, the errors and those at risk. */
  lemma CurveCounts(gs: seq<Group>, obs: seq<Obs>, horizon: int)
    requires Groups(gs, multiset(obs))
    ensures var c := CurveOf(gs, horizon);
      && c.n == |obs| && c.censored == Waiting(obs) && c.horizon == horizon
      && (forall q :: q in c.points ==> Counts(q, obs))
      && (forall o :: o in obs && o.kind == Completion ==> HasPoint(c.points, o.time))
  {
    GroupsTallied(gs, obs);
    PointsAre(gs, |gs|, |obs|);
    GroupsCount(gs, obs, IsCensored());
    CensoredGroups(gs, multiset(obs), |gs|, |obs|, IsCensored());
    var points := After(gs, |gs|, |obs|).points;
    forall q | q in points
      ensures Counts(q, obs)
    {
      var j :| 0 <= j < |gs| && OfGroup(q, gs, j, |obs|);
      PointCounts(gs, obs, q, j);
    }
    forall o | o in obs && o.kind == Completion
      ensures HasPoint(points, o.time)
    {
      CompletionHasPoint(gs, obs, points, o);
    }
  }
}
