// What one line changes, exactly; and from it, when the caps hold.
module LedgerCaps {
  import opened Prelude
  import opened Ledger
  import opened LedgerState
  import opened LedgerRuns

  // ----- liabilities without a projection

  ghost function RouteWorth(st: State, r: string): real {
    Worth(UsageOf(st, r).charged, UsageOf(st, r).prices)
  }

  ghost function WorthUpTo(st: State, k: nat): real
    requires k <= |st.order|
  {
    if k == 0 then st.hosting else WorthUpTo(st, k - 1) + RouteWorth(st, st.order[k - 1])
  }

  /** Every route's charge at its prices, plus hosting. */
  ghost function Liabilities(st: State): real {
    WorthUpTo(st, |st.order|)
  }

  lemma RouteWorthIs(st: State, r: string, route: string, tok: Tokens)
    requires Sound(st)
    ensures RouteLiabilityOf(st, r, route, tok, 0) == Some(RouteWorth(st, r))
  {
    assert UsageSound(UsageOf(st, r), OpenReserve(st.open, r));
  }

  lemma {:induction false} WorthUpToIs(st: State, k: nat, route: string, tok: Tokens)
    requires k <= |st.order|
    requires forall r :: RouteLiabilityOf(st, r, route, tok, 0) == Some(RouteWorth(st, r))
    ensures LiabilityUpTo(st, k, route, tok, 0) == Some(WorthUpTo(st, k))
  {
    if k > 0 {
      WorthUpToIs(st, k - 1, route, tok);
      assert RouteLiabilityOf(st, st.order[k - 1], route, tok, 0) == Some(RouteWorth(st, st.order[k - 1]));
    }
  }

  /** The projected liability of no further requests is the liability. */
  lemma LiabilityIs(st: State, route: string, tok: Tokens)
    requires Sound(st)
    ensures LiabilityOf(st, route, tok, 0) == Some(Liabilities(st))
  {
    forall r
      ensures RouteLiabilityOf(st, r, route, tok, 0) == Some(RouteWorth(st, r))
    {
      RouteWorthIs(st, r, route, tok);
    }
    WorthUpToIs(st, |st.order|, route, tok);
  }

  // ----- one line's effect

  /** The requests a line adds to its route's charge. */
  function RequestsAdded(st: State, body: Body): int {
    match body
    case Admit(_, _, _, _, reserve, _, _) => reserve
    case Settle(_, admit, sent, _) =>
      if admit in st.open && sent.Some? then sent.value.Total() - st.open[admit].reserve else 0
    case _ => 0
  }

  function RouteOf(body: Body): string {
    match body
    case Admit(route, _, _, _, _, _, _) => route
    case Settle(route, _, _, _) => route
    case Price(route, _, _) => route
    case Refused(route, _, _, _, _) => route
    case _ => ""
  }

  /** The liability a line adds to its route: requests at the highest recorded
      price, or the charge at a token pair times the rise of its price. */
  ghost function RouteLiabilityAdded(st: State, body: Body): real {
    match body
    case Admit(route, tok, price, _, reserve, _, _) => Times(reserve, price)
    case Settle(_, admit, sent, _) =>
      if admit in st.open && sent.Some? then
        var a := st.open[admit];
        Times(sent.value.Total() - a.reserve, PriceAt(st, a.route, a.tokens).GetOr(0.0))
      else 0.0
    case Price(route, list, r) =>
      var u := UsageOf(st, route);
      if list.tokens in u.charged && list.tokens in u.prices && r > u.prices[list.tokens]
      then Times(u.charged[list.tokens], r - u.prices[list.tokens]) else 0.0
    case _ => 0.0
  }

  function HostingAdded(body: Body): real {
    if body.Hosting? && body.usd.Dec? then body.usd.value else 0.0
  }

  /** Only route's usage differs, and the order is st's, route appended where it is new. */
  ghost predicate OnlyRoute(st: State, after: State, route: string) {
    && after.hosting == st.hosting
    && after.order == Put(st, route, UsageOf(after, route)).order
    && forall r :: r != route ==> UsageOf(after, r) == UsageOf(st, r)
  }

  lemma {:induction false} UpToOneRoute(st: State, after: State, route: string, k: nat, routes: set<string>)
    requires k <= |st.order| <= |after.order| && after.order[..|st.order|] == st.order
    requires Listed(routes, st.order[..k])
    requires after.hosting == st.hosting && forall r :: r != route ==> UsageOf(after, r) == UsageOf(st, r)
    ensures WorthUpTo(after, k) == WorthUpTo(st, k)
                                   + (if route in routes then RouteWorth(after, route) - RouteWorth(st, route) else 0.0)
    ensures TotalUpTo(after, k) == TotalUpTo(st, k)
                                   + (if route in routes then UsageOf(after, route).Charged() - UsageOf(st, route).Charged() else 0)
    decreases k
  {
    if k > 0 {
      var last := st.order[k - 1];
      assert after.order[k - 1] == last;
      assert st.order[..k][..k - 1] == st.order[..k - 1];
      UpToOneRoute(st, after, route, k - 1, routes - {last});
    }
  }

  lemma OneRoute(st: State, after: State, route: string)
    requires Sound(st) && OnlyRoute(st, after, route)
    ensures Liabilities(after) == Liabilities(st) + RouteWorth(after, route) - RouteWorth(st, route)
    ensures Total(after) == Total(st) + UsageOf(after, route).Charged() - UsageOf(st, route).Charged()
  {
    var n := |st.order|;
    assert st.order[..n] == st.order;
    UpToOneRoute(st, after, route, n, st.routes.Keys);
    if route !in st.routes {
      assert after.order == st.order + [route];
      assert RouteWorth(st, route) == 0.0;
    }
  }

  lemma PutOnly(st: State, after: State, route: string, u: Usage)
    requires after.routes == st.routes[route := u] && after.order == Put(st, route, u).order
    requires after.hosting == st.hosting
    ensures OnlyRoute(st, after, route) && UsageOf(after, route) == u
  {
  }

  /** What a line does to the usage of the route it names. */
  ghost predicate UsageEffect(st: State, e: Entry, after: State) {
    var r := RouteOf(e.body);
    && OnlyRoute(st, after, r)
    && UsageOf(after, r).Charged() == UsageOf(st, r).Charged() + RequestsAdded(st, e.body)
    && RouteWorth(after, r) == RouteWorth(st, r) + RouteLiabilityAdded(st, e.body)
  }

  lemma AdmitEffect(st: State, e: Entry)
    requires e.body.Admit? && Apply(st, e).Some?
    ensures UsageEffect(st, e, Apply(st, e).value)
  {
    var route, after := e.body.route, Apply(st, e).value;
    var u := UsageOf(st, route);
    WorthMore(u.charged, u.prices, e.body.tokens, e.body.reserve);
    var v := WithReserve(u, e.body.tokens, e.body.reserve);
    PutOnly(st, after, route, v);
  }

  lemma SettledWorth(u: Usage, a: Admission, c: Counts)
    requires a.tokens in u.prices
    ensures var v := WithSettled(u, a, c);
      && v.Charged() == u.Charged() + c.Total() - a.reserve
      && Worth(v.charged, v.prices) == Worth(u.charged, u.prices) + Times(c.Total() - a.reserve, u.prices[a.tokens])
  {
    WorthMore(u.charged, u.prices, a.tokens, c.Total() - a.reserve);
  }

  lemma OpenPriced(st: State, k: int)
    requires Sound(st) && k in st.open
    ensures st.open[k].tokens in UsageOf(st, st.open[k].route).prices
  {
    assert UsageSound(UsageOf(st, st.open[k].route), OpenReserve(st.open, st.open[k].route));
  }

  lemma SettleEffect(st: State, e: Entry)
    requires Sound(st) && e.body.Settle? && Apply(st, e).Some?
    ensures UsageEffect(st, e, Apply(st, e).value)
  {
    var a, after := st.open[e.body.admit], Apply(st, e).value;
    OpenPriced(st, e.body.admit);
    SettleUsageEffect(st, e, a, after);
  }

  lemma SettleUsageEffect(st: State, e: Entry, a: Admission, after: State)
    requires e.body.Settle? && Apply(st, e) == Some(after) && a == st.open[e.body.admit]
    requires a.tokens in UsageOf(st, a.route).prices
    ensures UsageEffect(st, e, after)
  {
    var u := UsageOf(st, a.route);
    SettledWorth(u, a, e.body.sent.value);
    var v := WithSettled(u, a, e.body.sent.value);
    PutOnly(st, after, a.route, v);
  }

  lemma PriceWorth(u: Usage, tok: Tokens, r: Usd, line: int)
    requires u.charged.Keys <= u.prices.Keys
    ensures var v := WithPrice(u, tok, r, line);
      Worth(v.charged, v.prices) == Worth(u.charged, u.prices)
        + (if tok in u.charged && tok in u.prices && r > u.prices[tok] then Times(u.charged[tok], r - u.prices[tok]) else 0.0)
  {
    if tok in u.charged {
      WorthRise(u.charged, u.prices, tok, r);
    } else {
      WorthUncharged(u.charged, u.prices, tok, r);
    }
  }

  lemma PriceEffect(st: State, e: Entry)
    requires e.body.Price? && Apply(st, e).Some?
    requires UsageOf(st, e.body.route).charged.Keys <= UsageOf(st, e.body.route).prices.Keys
    ensures UsageEffect(st, e, Apply(st, e).value)
  {
    var u, tok, after := UsageOf(st, e.body.route), e.body.list.tokens, Apply(st, e).value;
    var r := CheckPrice(e.body.route, e.body.list).value;
    PriceWorth(u, tok, r, e.seqNo);
    var v := WithPrice(u, tok, r, e.seqNo);
    PutOnly(st, after, e.body.route, v);
  }

  lemma ChargedPriced(st: State, r: string)
    requires Sound(st)
    ensures UsageOf(st, r).charged.Keys <= UsageOf(st, r).prices.Keys
  {
    assert UsageSound(UsageOf(st, r), OpenReserve(st.open, r));
  }

  lemma OneLine(st: State, e: Entry)
    requires Sound(st) && Apply(st, e).Some?
    requires e.body.Admit? || e.body.Settle? || e.body.Price?
    ensures UsageEffect(st, e, Apply(st, e).value)
  {
    ChargedPriced(st, RouteOf(e.body));
    match e.body
    case Admit(_, _, _, _, _, _, _) => AdmitEffect(st, e);
    case Settle(_, _, _, _) => SettleEffect(st, e);
    case Price(_, _, _) => PriceEffect(st, e);
  }

  /** Conservation line by line: the charge and the liability in all change by
      exactly what the line adds to its route, and hosting. */
  lemma LineEffect(st: State, e: Entry)
    requires Sound(st) && Apply(st, e).Some?
    ensures var after := Apply(st, e).value;
      && Total(after) == Total(st) + RequestsAdded(st, e.body)
      && Liabilities(after) == Liabilities(st) + RouteLiabilityAdded(st, e.body) + HostingAdded(e.body)
  {
    var after := Apply(st, e).value;
    if e.body.Admit? || e.body.Settle? || e.body.Price? {
      OneLine(st, e);
      OneRoute(st, after, RouteOf(e.body));
    } else {
      OtherEffect(st, after, after.hosting - st.hosting, |st.order|);
    }
  }

  /** And each route's by what the line adds where it names the route, by nothing elsewhere. */
  lemma RouteEffect(st: State, e: Entry, r: string)
    requires Sound(st) && Apply(st, e).Some?
    ensures var after := Apply(st, e).value;
      && UsageOf(after, r).Charged()
           == UsageOf(st, r).Charged() + (if r == RouteOf(e.body) then RequestsAdded(st, e.body) else 0)
      && RouteWorth(after, r)
           == RouteWorth(st, r) + (if r == RouteOf(e.body) then RouteLiabilityAdded(st, e.body) else 0.0)
  {
    if e.body.Admit? || e.body.Settle? || e.body.Price? {
      OneLine(st, e);
    }
  }

  lemma {:induction false} OtherEffect(st: State, after: State, d: real, k: nat)
    requires after.routes == st.routes && after.order == st.order && after.hosting == st.hosting + d
    requires k <= |st.order|
    ensures WorthUpTo(after, k) == WorthUpTo(st, k) + d
    ensures TotalUpTo(after, k) == TotalUpTo(st, k)
    ensures forall r :: UsageOf(after, r) == UsageOf(st, r)
  {
    if k > 0 {
      OtherEffect(st, after, d, k - 1);
    }
  }

  // ----- the projection is exact

  lemma RouteProjection(st: State, after: State, r: string, route: string, tok: Tokens, n: int)
    requires n >= 1 && UsageOf(after, route) == WithReserve(UsageOf(st, route), tok, n)
    requires r != route ==> UsageOf(after, r) == UsageOf(st, r)
    ensures RouteLiabilityOf(st, r, route, tok, n) == RouteLiabilityOf(after, r, route, tok, 0)
  {
  }

  lemma {:induction false} SameProjection(st: State, after: State, route: string, tok: Tokens, n: int, k: nat)
    requires after.order == st.order && after.hosting == st.hosting && k <= |st.order|
    requires n >= 1 && UsageOf(after, route) == WithReserve(UsageOf(st, route), tok, n)
    requires forall r :: r != route ==> UsageOf(after, r) == UsageOf(st, r)
    ensures LiabilityUpTo(st, k, route, tok, n) == LiabilityUpTo(after, k, route, tok, 0)
  {
    if k > 0 {
      SameProjection(st, after, route, tok, n, k - 1);
      RouteProjection(st, after, st.order[k - 1], route, tok, n);
    }
  }

  lemma AdmittedUsage(st: State, e: Entry)
    requires e.body.Admit? && Apply(st, e).Some?
    ensures var after, route := Apply(st, e).value, e.body.route;
      && UsageOf(after, route) == WithReserve(UsageOf(st, route), e.body.tokens, e.body.reserve)
      && after.order == st.order && after.hosting == st.hosting && after.routeCaps == st.routeCaps
      && (forall r :: r != route ==> UsageOf(after, r) == UsageOf(st, r))
  {
  }

  /** The position an admission projects is the position of the state it leaves. */
  lemma ProjectionExact(st: State, e: Entry)
    requires Sound(st) && e.body.Admit? && Apply(st, e).Some?
    ensures PositionOf(st, e.body.route, e.body.tokens, e.body.reserve)
         == PositionOf(Apply(st, e).value, e.body.route, e.body.tokens, 0)
  {
    var after, route, tok, n := Apply(st, e).value, e.body.route, e.body.tokens, e.body.reserve;
    AdmittedUsage(st, e);
    SameProjection(st, after, route, tok, n, |st.order|);
    RouteProjection(st, after, route, route, tok, n);
    LineEffect(st, e);
    SamePositions(st, after, route, tok, n);
  }

  lemma SamePositions(st: State, after: State, route: string, tok: Tokens, n: int)
    requires LiabilityOf(st, route, tok, n) == LiabilityOf(after, route, tok, 0)
    requires RouteLiabilityOf(st, route, route, tok, n) == RouteLiabilityOf(after, route, route, tok, 0)
    requires after.routeCaps == st.routeCaps && PriceAt(st, route, tok) == PriceAt(after, route, tok)
    requires Total(after) == Total(st) + n && UsageOf(after, route).Charged() == UsageOf(st, route).Charged() + n
    ensures PositionOf(st, route, tok, n) == PositionOf(after, route, tok, 0)
  {
  }

  // ----- the caps

  ghost predicate WithinRequestCaps(st: State) {
    && (st.caps.routeRequests > 0 ==> forall r :: UsageOf(st, r).Charged() <= st.caps.routeRequests)
    && (st.caps.totalRequests > 0 ==> Total(st) <= st.caps.totalRequests)
  }

  ghost predicate WithinLiabilityCaps(st: State) {
    && Liabilities(st) <= st.liabilityCap
    && forall r :: r in st.routeCaps ==> RouteWorth(st, r) <= st.routeCaps[r]
  }

  lemma PositionMeaning(st: State, route: string, tok: Tokens)
    requires Sound(st) && PositionOf(st, route, tok, 0).Ok?
    ensures var p := PositionOf(st, route, tok, 0).value;
      && p.routeRequests == UsageOf(st, route).Charged() && p.totalRequests == Total(st)
      && p.liability == Liabilities(st)
      && (route in st.routeCaps ==> p.routeLiability == Some(RouteWorth(st, route)))
  {
    LiabilityIs(st, route, tok);
    RouteWorthIs(st, route, route, tok);
  }

  /** The state after an operation that wrote a line. */
  lemma AfterLine(lines: seq<Entry>, e: Entry)
    requires Parse(lines).Some? && Parse(lines + [e]).Some?
    ensures var st := Parse(lines).value; var after := Parse(lines + [e]).value;
      && Sound(st) && Sound(after) && st.lines > 0
      && Apply(st, e).Some? && after == Apply(st, e).value.(lines := st.lines + 1)
      && after.caps == st.caps && after.liabilityCap == st.liabilityCap && after.routeCaps == st.routeCaps
  {
    var st := Parse(lines).value;
    ReplaySound(lines);
    ReplaySound(lines + [e]);
    ReplayAppend(lines, e);
    NextApplies(lines, st, e);
  }

  lemma NextApplies(lines: seq<Entry>, st: State, e: Entry)
    requires Next(lines, st, e).Some? && st.lines > 0
    ensures Apply(st, e).Some? && Next(lines, st, e).value == Apply(st, e).value.(lines := st.lines + 1)
    ensures var after := Apply(st, e).value;
      after.caps == st.caps && after.liabilityCap == st.liabilityCap && after.routeCaps == st.routeCaps
  {
  }

  lemma SameButLines(st: State, n: nat)
    ensures Total(st.(lines := n)) == Total(st) && Liabilities(st.(lines := n)) == Liabilities(st)
    ensures forall r :: UsageOf(st.(lines := n), r) == UsageOf(st, r)
  {
    OtherEffect(st, st.(lines := n), 0.0, |st.order|);
  }

  /** What one more line does to the parsed state. */
  lemma LedgerLineEffect(lines: seq<Entry>, e: Entry, r: string)
    requires Parse(lines).Some? && Parse(lines + [e]).Some?
    ensures var st := Parse(lines).value; var after := Parse(lines + [e]).value; var named := r == RouteOf(e.body);
      && Total(after) == Total(st) + RequestsAdded(st, e.body)
      && Liabilities(after) == Liabilities(st) + RouteLiabilityAdded(st, e.body) + HostingAdded(e.body)
      && UsageOf(after, r).Charged() == UsageOf(st, r).Charged() + (if named then RequestsAdded(st, e.body) else 0)
      && RouteWorth(after, r) == RouteWorth(st, r) + (if named then RouteLiabilityAdded(st, e.body) else 0.0)
  {
    AfterLine(lines, e);
    var st := Parse(lines).value;
    LineEffect(st, e);
    RouteEffect(st, e, r);
    SameButLines(Apply(st, e).value, st.lines + 1);
  }

  lemma WrittenAdmit(st: State, route: string, purpose: Purpose, n: int, tok: Tokens, rev: Option<int>)
    requires DraftAdmit(st, route, purpose, n, tok, rev).Line?
    ensures var b := DraftAdmit(st, route, purpose, n, tok, rev).body;
      && b.Admit? && b.route == route && b.tokens == tok && b.reserve == n
      && PositionOf(st, route, tok, n) == Ok(b.after)
      && CapPassed(st, route, b.after).None?
  {
  }

  lemma WithinMeaning(st: State, route: string, p: Position)
    requires CapPassed(st, route, p).None?
    ensures st.caps.routeRequests > 0 ==> p.routeRequests <= st.caps.routeRequests
    ensures st.caps.totalRequests > 0 ==> p.totalRequests <= st.caps.totalRequests
    ensures route in st.routeCaps && p.routeLiability.Some? ==> p.routeLiability.value <= st.routeCaps[route]
    ensures p.liability <= st.liabilityCap
  {
  }

  /** The state an admit line leaves, from the position it projected. */
  lemma AdmitLine(lines: seq<Entry>, e: Entry)
    requires Parse(lines).Some? && Parse(lines + [e]).Some? && e.body.Admit?
    requires PositionOf(Parse(lines).value, e.body.route, e.body.tokens, e.body.reserve) == Ok(e.body.after)
    ensures var after, route, p := Parse(lines + [e]).value, e.body.route, e.body.after;
      && PositionOf(after, route, e.body.tokens, 0) == Ok(p)
      && p.routeRequests == UsageOf(after, route).Charged() && p.totalRequests == Total(after)
      && p.liability == Liabilities(after)
      && (route in after.routeCaps ==> p.routeLiability == Some(RouteWorth(after, route)))
  {
    AfterLine(lines, e);
    var st := Parse(lines).value;
    ProjectionExact(st, e);
    SamePosition(Apply(st, e).value, st.lines + 1, e.body.route, e.body.tokens);
    PositionMeaning(Parse(lines + [e]).value, e.body.route, e.body.tokens);
  }

  /** Every admission the ledger writes lands within all its caps. */
  lemma AdmitLandsWithinCaps(lines: seq<Entry>, route: string, purpose: Purpose, n: int, tok: Tokens,
                             rev: Option<int>, time: int)
    requires Parse(lines).Some?
    requires Perform(lines, Reserve(route, purpose, n, tok, rev), time).1.Written?
    ensures var (file, outcome) := Perform(lines, Reserve(route, purpose, n, tok, rev), time);
      var st := Parse(lines).value;
      && file == lines + [outcome.line] && Parse(file).Some?
      && outcome.line.body.Admit? && outcome.line.body.route == route && outcome.line.body.reserve == n
      && outcome.line.body.tokens == tok
      && var after := Parse(file).value;
      && PositionOf(after, route, tok, 0) == Ok(outcome.line.body.after)
      && (st.caps.routeRequests > 0 ==> UsageOf(after, route).Charged() <= st.caps.routeRequests)
      && (st.caps.totalRequests > 0 ==> Total(after) <= st.caps.totalRequests)
      && (route in st.routeCaps ==> RouteWorth(after, route) <= st.routeCaps[route])
      && Liabilities(after) <= st.liabilityCap
  {
    var op := Reserve(route, purpose, n, tok, rev);
    var e := Perform(lines, op, time).1.line;
    PerformParses(lines, op, time);
    WrittenAdmit(Parse(lines).value, route, purpose, n, tok, rev);
    AdmitLine(lines, e);
    AfterLine(lines, e);
    WithinMeaning(Parse(lines).value, route, e.body.after);
  }

  lemma {:induction false} SamePositionUpTo(st: State, n: nat, route: string, tok: Tokens, k: nat)
    requires k <= |st.order|
    ensures LiabilityUpTo(st.(lines := n), k, route, tok, 0) == LiabilityUpTo(st, k, route, tok, 0)
  {
    if k > 0 {
      SamePositionUpTo(st, n, route, tok, k - 1);
    }
  }

  lemma SamePosition(st: State, n: nat, route: string, tok: Tokens)
    ensures PositionOf(st.(lines := n), route, tok, 0) == PositionOf(st, route, tok, 0)
  {
    SamePositionUpTo(st, n, route, tok, |st.order|);
    SameButLines(st, n);
  }

  // ----- the caps over whole runs

  ghost predicate NoOverrun(lines: seq<Entry>) {
    forall k :: 0 <= k < |lines| ==> lines[k].body.Settle? ==> !lines[k].body.overrun
  }

  /** Only admissions raise a charge, where nothing overruns. */
  lemma SettleLowers(st: State, body: Body, e: Entry)
    requires Sound(st) && e.body == body && Apply(st, e).Some? && !body.Admit?
    requires body.Settle? ==> !body.overrun
    ensures RequestsAdded(st, body) <= 0
  {
  }

  lemma LineKeepsRequestCaps(lines: seq<Entry>, e: Entry)
    requires Parse(lines).Some? && Parse(lines + [e]).Some?
    requires WithinRequestCaps(Parse(lines).value)
    requires !e.body.Admit? && (e.body.Settle? ==> !e.body.overrun)
    ensures WithinRequestCaps(Parse(lines + [e]).value)
  {
    AfterLine(lines, e);
    var st, after := Parse(lines).value, Parse(lines + [e]).value;
    SettleLowers(st, e.body, e);
    forall r
      ensures UsageOf(after, r).Charged() <= UsageOf(st, r).Charged()
    {
      LedgerLineEffect(lines, e, r);
    }
    LedgerLineEffect(lines, e, "");
  }

  lemma AdmitLineKeepsRequestCaps(lines: seq<Entry>, e: Entry)
    requires Parse(lines).Some? && Parse(lines + [e]).Some? && e.body.Admit?
    requires WithinRequestCaps(Parse(lines).value)
    requires var st, after := Parse(lines).value, Parse(lines + [e]).value;
      && (st.caps.routeRequests > 0 ==> UsageOf(after, e.body.route).Charged() <= st.caps.routeRequests)
      && (st.caps.totalRequests > 0 ==> Total(after) <= st.caps.totalRequests)
    ensures WithinRequestCaps(Parse(lines + [e]).value)
  {
    AfterLine(lines, e);
    var st, after := Parse(lines).value, Parse(lines + [e]).value;
    forall r
      ensures st.caps.routeRequests > 0 ==> UsageOf(after, r).Charged() <= st.caps.routeRequests
    {
      LedgerLineEffect(lines, e, r);
    }
  }

  lemma AdmitKeepsRequestCaps(lines: seq<Entry>, route: string, purpose: Purpose, n: int, tok: Tokens,
                              rev: Option<int>, time: int)
    requires Parse(lines).Some? && WithinRequestCaps(Parse(lines).value)
    requires Perform(lines, Reserve(route, purpose, n, tok, rev), time).1.Written?
    ensures var file := Perform(lines, Reserve(route, purpose, n, tok, rev), time).0;
      Parse(file).Some? && WithinRequestCaps(Parse(file).value)
  {
    var e := Perform(lines, Reserve(route, purpose, n, tok, rev), time).1.line;
    AdmitLandsWithinCaps(lines, route, purpose, n, tok, rev, time);
    AdmitLineKeepsRequestCaps(lines, e);
  }

  lemma PerformKeepsRequestCaps(lines: seq<Entry>, op: Op, time: int)
    requires Parse(lines).Some? && WithinRequestCaps(Parse(lines).value)
    requires NoOverrun(Perform(lines, op, time).0)
    ensures Parse(Perform(lines, op, time).0).Some?
    ensures WithinRequestCaps(Parse(Perform(lines, op, time).0).value)
  {
    PerformParses(lines, op, time);
    var (file, outcome) := Perform(lines, op, time);
    if file != lines {
      var e := file[|lines|];
      assert file == lines + [e];
      if op.Reserve? && outcome.Written? {
        AdmitKeepsRequestCaps(lines, op.route, op.purpose, op.n, op.tok, op.rev, time);
      } else {
        LineKeepsRequestCaps(lines, e);
      }
    }
  }

  lemma CreatedState(caps: Caps, time: int)
    requires ValidCaps(caps)
    ensures Parse(Created(caps, time)).Some?
    ensures var st := Parse(Created(caps, time)).value;
      && st.caps == caps && st.routes == map[] && st.order == [] && st.hosting == 0.0
  {
    var e := Stamp([], time, Open(1, Some(caps)));
    ReplayAppend([], e);
    assert [] + [e] == [e];
  }

  /** The request caps hold in every reachable state of a run in which nothing overran. */
  lemma {:induction false} RequestCapsHold(caps: Caps, time: int, ops: seq<(Op, int)>)
    requires ValidCaps(caps)
    requires NoOverrun(Run(Created(caps, time), ops))
    ensures Parse(Run(Created(caps, time), ops)).Some?
    ensures WithinRequestCaps(Parse(Run(Created(caps, time), ops)).value)
    decreases |ops|
  {
    CreatedState(caps, time);
    var first := Created(caps, time);
    if ops != [] {
      var before, last := ops[..|ops| - 1], ops[|ops| - 1];
      RunParses(first, before);
      PerformParses(Run(first, before), last.0, last.1);
      assert forall k :: 0 <= k < |Run(first, before)| ==> Run(first, before)[k] == Run(first, ops)[k];
      RequestCapsHold(caps, time, before);
      PerformKeepsRequestCaps(Run(first, before), last.0, last.1);
    }
  }

  /** A line that raises no recorded price, adds no hosting and overruns nothing. */
  ghost predicate Quiet(st: State, body: Body) {
    match body
    case Hosting(_) => false
    case Settle(_, _, _, overrun) => !overrun
    case Price(route, list, r) => PriceAt(st, route, list.tokens).Some? ==> r <= PriceAt(st, route, list.tokens).value
    case _ => true
  }

  lemma QuietAddsNothing(st: State, e: Entry)
    requires Sound(st) && Apply(st, e).Some? && Quiet(st, e.body) && !e.body.Admit?
    ensures RouteLiabilityAdded(st, e.body) <= 0.0 && HostingAdded(e.body) == 0.0
  {
    if e.body.Settle? {
      var a := st.open[e.body.admit];
      OpenPriced(st, e.body.admit);
      var d, p := e.body.sent.value.Total() - a.reserve, UsageOf(st, a.route).prices[a.tokens];
      TimesIs(d, p);
      TimesMono(0, -d, p, p);
      TimesIs(-d, p);
    }
  }

  lemma LineKeepsLiabilityCaps(lines: seq<Entry>, e: Entry)
    requires Parse(lines).Some? && Parse(lines + [e]).Some?
    requires WithinLiabilityCaps(Parse(lines).value)
    requires !e.body.Admit? && Quiet(Parse(lines).value, e.body)
    ensures WithinLiabilityCaps(Parse(lines + [e]).value)
  {
    AfterLine(lines, e);
    var st, after := Parse(lines).value, Parse(lines + [e]).value;
    QuietAddsNothing(st, e);
    LedgerLineEffect(lines, e, "");
    forall r | r in after.routeCaps
      ensures RouteWorth(after, r) <= after.routeCaps[r]
    {
      LedgerLineEffect(lines, e, r);
    }
  }

  lemma AdmitLineKeepsLiabilityCaps(lines: seq<Entry>, e: Entry)
    requires Parse(lines).Some? && Parse(lines + [e]).Some? && e.body.Admit?
    requires WithinLiabilityCaps(Parse(lines).value)
    requires var st, after, route := Parse(lines).value, Parse(lines + [e]).value, e.body.route;
      && (route in st.routeCaps ==> RouteWorth(after, route) <= st.routeCaps[route])
      && Liabilities(after) <= st.liabilityCap
    ensures WithinLiabilityCaps(Parse(lines + [e]).value)
  {
    AfterLine(lines, e);
    var after := Parse(lines + [e]).value;
    forall r | r in after.routeCaps
      ensures RouteWorth(after, r) <= after.routeCaps[r]
    {
      LedgerLineEffect(lines, e, r);
    }
  }

  lemma AdmitKeepsLiabilityCaps(lines: seq<Entry>, route: string, purpose: Purpose, n: int, tok: Tokens,
                                rev: Option<int>, time: int)
    requires Parse(lines).Some? && WithinLiabilityCaps(Parse(lines).value)
    requires Perform(lines, Reserve(route, purpose, n, tok, rev), time).1.Written?
    ensures var file := Perform(lines, Reserve(route, purpose, n, tok, rev), time).0;
      Parse(file).Some? && WithinLiabilityCaps(Parse(file).value)
  {
    var e := Perform(lines, Reserve(route, purpose, n, tok, rev), time).1.line;
    AdmitLandsWithinCaps(lines, route, purpose, n, tok, rev, time);
    AdmitLineKeepsLiabilityCaps(lines, e);
  }

  lemma PerformKeepsLiabilityCaps(lines: seq<Entry>, op: Op, time: int)
    requires Parse(lines).Some? && WithinLiabilityCaps(Parse(lines).value)
    requires QuietStep(lines, op, time)
    ensures Parse(Perform(lines, op, time).0).Some?
    ensures WithinLiabilityCaps(Parse(Perform(lines, op, time).0).value)
  {
    PerformParses(lines, op, time);
    var (file, outcome) := Perform(lines, op, time);
    if file != lines {
      var e := file[|lines|];
      assert file == lines + [e];
      if op.Reserve? && outcome.Written? {
        AdmitKeepsLiabilityCaps(lines, op.route, op.purpose, op.n, op.tok, op.rev, time);
      } else {
        LineKeepsLiabilityCaps(lines, e);
      }
    }
  }

  ghost predicate QuietStep(lines: seq<Entry>, op: Op, time: int) {
    var file := Perform(lines, op, time).0;
    Parse(lines).Some? && |file| > |lines| ==> Quiet(Parse(lines).value, file[|lines|].body)
  }

  ghost predicate QuietRun(lines: seq<Entry>, ops: seq<(Op, int)>) {
    forall k :: 0 <= k < |ops| ==> QuietStep(Run(lines, ops[..k]), ops[k].0, ops[k].1)
  }

  /** Once a ledger is within its liability caps it stays there, through any
      admissions, until a line raises a recorded price, adds hosting or overruns. */
  lemma {:induction false} LiabilityCapsHold(lines: seq<Entry>, ops: seq<(Op, int)>)
    requires Parse(lines).Some? && WithinLiabilityCaps(Parse(lines).value)
    requires QuietRun(lines, ops)
    ensures Parse(Run(lines, ops)).Some?
    ensures WithinLiabilityCaps(Parse(Run(lines, ops)).value)
    decreases |ops|
  {
    if ops != [] {
      var n, before := |ops| - 1, ops[..|ops| - 1];
      QuietPrefix(lines, ops);
      LiabilityCapsHold(lines, before);
      PerformKeepsLiabilityCaps(Run(lines, before), ops[n].0, ops[n].1);
    }
  }

  lemma QuietPrefix(lines: seq<Entry>, ops: seq<(Op, int)>)
    requires QuietRun(lines, ops) && ops != []
    ensures QuietRun(lines, ops[..|ops| - 1])
    ensures QuietStep(Run(lines, ops[..|ops| - 1]), ops[|ops| - 1].0, ops[|ops| - 1].1)
  {
    var before := ops[..|ops| - 1];
    forall k | 0 <= k < |before|
      ensures QuietStep(Run(lines, before[..k]), before[k].0, before[k].1)
    {
      assert before[..k] == ops[..k];
    }
  }
}
