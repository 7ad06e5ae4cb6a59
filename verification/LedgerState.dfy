// What every replayed ledger state keeps: its reservations are its open
// admissions, its per-token charges sum to its total charge, and every charge
// has a price, so its liability is always defined.
module LedgerState {
  import opened Prelude
  import opened Ledger

  // ----- sums over the state's maps

  function ReserveOf(open: map<int, Admission>, r: string): int -> int {
    (k: int) => if k in open && open[k].route == r then open[k].reserve else 0
  }

  /** Route r's unsettled reservations. */
  ghost function OpenReserve(open: map<int, Admission>, r: string): int {
    SumI(open.Keys, ReserveOf(open, r))
  }

  lemma OpenReserveAdd(open: map<int, Admission>, k: int, a: Admission, r: string)
    requires k !in open
    ensures OpenReserve(open[k := a], r) == OpenReserve(open, r) + (if a.route == r then a.reserve else 0)
  {
    var after := open[k := a];
    SumISplit(after.Keys, ReserveOf(after, r), k);
    assert after.Keys - {k} == open.Keys;
    SumISame(open.Keys, ReserveOf(after, r), ReserveOf(open, r));
  }

  lemma OpenReserveRemove(open: map<int, Admission>, k: int, r: string)
    requires k in open
    ensures OpenReserve(open - {k}, r) == OpenReserve(open, r) - (if open[k].route == r then open[k].reserve else 0)
  {
    var after := open - {k};
    SumISplit(open.Keys, ReserveOf(open, r), k);
    assert after.Keys == open.Keys - {k};
    SumISame(after.Keys, ReserveOf(after, r), ReserveOf(open, r));
  }

  function CountOf(n: map<Tokens, int>): Tokens -> int {
    (t: Tokens) => if t in n then n[t] else 0
  }

  ghost function ChargeSum(n: map<Tokens, int>): int {
    SumI(n.Keys, CountOf(n))
  }

  lemma ChargeSumMore(n: map<Tokens, int>, tok: Tokens, d: int)
    ensures ChargeSum(ChargedMore(n, tok, d)) == ChargeSum(n) + d
  {
    var after := ChargedMore(n, tok, d);
    SumISplit(after.Keys, CountOf(after), tok);
    var rest := after.Keys - {tok};
    SumISame(rest, CountOf(after), CountOf(n));
    if tok in n {
      SumISplit(n.Keys, CountOf(n), tok);
      assert n.Keys - {tok} == rest;
    } else {
      assert n.Keys == rest;
    }
  }

  lemma WorthButOne(n: map<Tokens, int>, m: map<Tokens, int>, p: map<Tokens, Usd>, q: map<Tokens, Usd>, tok: Tokens)
    requires tok in m && n.Keys + {tok} == m.Keys
    requires forall t :: t in n && t != tok ==> TermOf(n, p)(t) == TermOf(m, q)(t)
    ensures Worth(m, q) - TermOf(m, q)(tok) == Worth(n, p) - TermOf(n, p)(tok)
  {
    var f, g := TermOf(n, p), TermOf(m, q);
    SumRSplit(m.Keys, g, tok);
    var rest := m.Keys - {tok};
    SumRSame(rest, g, f);
    if tok in n {
      SumRSplit(n.Keys, f, tok);
      assert n.Keys - {tok} == rest;
    } else {
      assert n.Keys == rest;
    }
  }

  /** d more requests at a priced token pair are worth d times its price. */
  lemma WorthMore(n: map<Tokens, int>, p: map<Tokens, Usd>, tok: Tokens, d: int)
    requires tok in p
    ensures Worth(ChargedMore(n, tok, d), p) == Worth(n, p) + Times(d, p[tok])
  {
    var after := ChargedMore(n, tok, d);
    WorthButOne(n, after, p, p, tok);
    var was := if tok in n then n[tok] else 0;
    assert after[tok] == was + d;
    TimesAdd(was, d, p[tok]);
  }

  /** A price rise at one token pair costs its charge times the rise. */
  lemma WorthRise(n: map<Tokens, int>, p: map<Tokens, Usd>, tok: Tokens, r: Usd)
    requires tok in n && tok in p
    ensures Worth(n, p[tok := r]) == Worth(n, p) + Times(n[tok], r - p[tok])
  {
    WorthButOne(n, n, p, p[tok := r], tok);
    TimesRise(n[tok], p[tok], r);
  }

  /** A price at a token pair nothing is charged at costs nothing. */
  lemma WorthUncharged(n: map<Tokens, int>, p: map<Tokens, Usd>, tok: Tokens, r: Usd)
    requires tok !in n
    ensures Worth(n, p[tok := r]) == Worth(n, p)
  {
    SumRSame(n.Keys, TermOf(n, p), TermOf(n, p[tok := r]));
  }

  // ----- the invariant

  ghost predicate UsageSound(u: Usage, reserved: int) {
    && u.reserved == reserved
    && ChargeSum(u.charged) == u.Charged()
    && u.charged.Keys <= u.prices.Keys
    && u.probe >= 0 && u.development >= 0 && u.warmup >= 0 && u.measured >= 0 && u.replacement >= 0
  }

  /** The routes in first-seen order, each once. */
  ghost predicate Listed(routes: set<string>, order: seq<string>)
    decreases |order|
  {
    if order == [] then routes == {} else
    var last := order[|order| - 1];
    last in routes && Listed(routes - {last}, order[..|order| - 1])
  }

  ghost predicate OpenSound(st: State) {
    forall k :: k in st.open ==>
      && 1 <= k <= st.lines
      && st.open[k].seqNo == k
      && st.open[k].reserve >= 1
      && st.open[k].route in st.routes
      && st.open[k].tokens in st.routes[st.open[k].route].charged
  }

  ghost predicate UsagesSound(st: State) {
    forall r :: UsageSound(UsageOf(st, r), OpenReserve(st.open, r))
  }

  ghost predicate CapsSound(st: State) {
    st.lines > 0 ==>
      && ValidCaps(st.caps)
      && st.liabilityCap == st.caps.liability.value
      && st.routeCaps == RouteCapsOf(st.caps)
  }

  ghost predicate Sound(st: State) {
    Listed(st.routes.Keys, st.order) && OpenSound(st) && UsagesSound(st) && CapsSound(st)
  }

  lemma FreshSound()
    ensures Sound(FRESH)
  {
    forall r
      ensures UsageSound(UsageOf(FRESH, r), OpenReserve(FRESH.open, r))
    {
      assert ChargeSum(NewUsage(r).charged) == 0;
      assert OpenReserve(FRESH.open, r) == 0;
    }
  }

  lemma PutListed(st: State, route: string, u: Usage)
    requires Listed(st.routes.Keys, st.order)
    ensures Listed(Put(st, route, u).routes.Keys, Put(st, route, u).order)
  {
    var routes := Put(st, route, u).routes.Keys;
    assert routes == st.routes.Keys + {route};
    if route in st.routes {
      assert routes == st.routes.Keys;
    } else {
      assert routes - {route} == st.routes.Keys;
      assert (st.order + [route])[..|st.order|] == st.order;
    }
  }

  lemma PutUsage(st: State, route: string, u: Usage, after: State, s: string)
    requires after.routes == st.routes[route := u]
    requires s == route ==> UsageSound(u, OpenReserve(after.open, s))
    requires s != route ==> OpenReserve(after.open, s) == OpenReserve(st.open, s)
    requires UsageSound(UsageOf(st, s), OpenReserve(st.open, s))
    ensures UsageSound(UsageOf(after, s), OpenReserve(after.open, s))
  {
    assert UsageOf(after, s) == if s == route then u else UsageOf(st, s);
  }

  /** Storing a sound usage, with open admissions that leave the other routes' alone. */
  lemma PutUsages(st: State, route: string, u: Usage, after: State)
    requires UsagesSound(st) && after.routes == st.routes[route := u]
    requires UsageSound(u, OpenReserve(after.open, route))
    requires forall s :: s != route ==> OpenReserve(after.open, s) == OpenReserve(st.open, s)
    ensures UsagesSound(after)
  {
    forall s
      ensures UsageSound(UsageOf(after, s), OpenReserve(after.open, s))
    {
      PutUsage(st, route, u, after, s);
    }
  }

  lemma PriceUsage(u: Usage, tok: Tokens, r: Usd, line: int, reserved: int)
    requires UsageSound(u, reserved)
    ensures UsageSound(WithPrice(u, tok, r, line), reserved)
  {
  }

  lemma PriceOpen(st: State, route: string, u: Usage)
    requires OpenSound(st) && u.charged == UsageOf(st, route).charged
    ensures OpenSound(Put(st, route, u).(lines := st.lines + 1))
  {
  }

  lemma CapsKept(st: State, after: State)
    requires CapsSound(st) && st.lines > 0
    requires after.caps == st.caps && after.liabilityCap == st.liabilityCap && after.routeCaps == st.routeCaps
    ensures CapsSound(after)
  {
  }

  lemma SameOpenSound(st: State, route: string, u: Usage)
    requires Sound(st) && st.lines > 0 && UsageSound(u, OpenReserve(st.open, route))
    requires u.charged == UsageOf(st, route).charged
    ensures Sound(Put(st, route, u).(lines := st.lines + 1))
  {
    var after := Put(st, route, u).(lines := st.lines + 1);
    PutListed(st, route, u);
    PutUsages(st, route, u, after);
    PriceOpen(st, route, u);
    CapsKept(st, after);
  }

  lemma PriceSound(st: State, route: string, tok: Tokens, r: Usd, line: int)
    requires Sound(st) && st.lines > 0
    ensures Sound(Put(st, route, WithPrice(UsageOf(st, route), tok, r, line)).(lines := st.lines + 1))
  {
    var was := UsageOf(st, route);
    assert UsageSound(was, OpenReserve(st.open, route));
    PriceUsage(was, tok, r, line, OpenReserve(st.open, route));
    var u := WithPrice(was, tok, r, line);
    SameOpenSound(st, route, u);
  }

  lemma ReserveUsage(u: Usage, tok: Tokens, n: int, reserved: int)
    requires UsageSound(u, reserved) && tok in u.prices
    ensures UsageSound(WithReserve(u, tok, n), reserved + n)
  {
    ChargeSumMore(u.charged, tok, n);
  }

  lemma SettledUsage(u: Usage, a: Admission, c: Counts, reserved: int)
    requires UsageSound(u, reserved) && a.tokens in u.prices
    requires CountsAllowed(a.purpose, c)
    ensures UsageSound(WithSettled(u, a, c), reserved - a.reserve)
  {
    ChargeSumMore(u.charged, a.tokens, c.Total() - a.reserve);
  }

  lemma AdmitSound(st: State, a: Admission)
    requires Sound(st) && st.lines > 0
    requires a.seqNo == st.lines + 1 && a.reserve >= 1 && a.tokens in UsageOf(st, a.route).prices
    ensures Sound(Put(st, a.route, WithReserve(UsageOf(st, a.route), a.tokens, a.reserve))
                  .(open := st.open[a.seqNo := a], lines := st.lines + 1))
  {
    var u := WithReserve(UsageOf(st, a.route), a.tokens, a.reserve);
    var open := st.open[a.seqNo := a];
    PutListed(st, a.route, u);
    assert UsageSound(UsageOf(st, a.route), OpenReserve(st.open, a.route));
    ReserveUsage(UsageOf(st, a.route), a.tokens, a.reserve, OpenReserve(st.open, a.route));
    forall s {
      OpenReserveAdd(st.open, a.seqNo, a, s);
    }
    PutUsages(st, a.route, u, Put(st, a.route, u).(open := open, lines := st.lines + 1));
    AdmitOpen(st, a);
  }

  lemma AdmitOpen(st: State, a: Admission)
    requires OpenSound(st) && a.seqNo == st.lines + 1 && a.reserve >= 1
    ensures OpenSound(Put(st, a.route, WithReserve(UsageOf(st, a.route), a.tokens, a.reserve))
                      .(open := st.open[a.seqNo := a], lines := st.lines + 1))
  {
  }

  lemma SettleOpen(st: State, k: int, c: Counts)
    requires OpenSound(st) && k in st.open
    ensures OpenSound(Put(st, st.open[k].route, WithSettled(UsageOf(st, st.open[k].route), st.open[k], c))
                      .(open := st.open - {k}, lines := st.lines + 1))
  {
  }

  lemma SettleSound(st: State, k: int, c: Counts)
    requires Sound(st) && st.lines > 0 && k in st.open && CountsAllowed(st.open[k].purpose, c)
    ensures var a := st.open[k];
      Sound(Put(st, a.route, WithSettled(UsageOf(st, a.route), a, c)).(open := st.open - {k}, lines := st.lines + 1))
  {
    var a := st.open[k];
    var u := WithSettled(UsageOf(st, a.route), a, c);
    PutListed(st, a.route, u);
    assert UsageSound(UsageOf(st, a.route), OpenReserve(st.open, a.route));
    SettledUsage(UsageOf(st, a.route), a, c, OpenReserve(st.open, a.route));
    forall s {
      OpenReserveRemove(st.open, k, s);
    }
    PutUsages(st, a.route, u, Put(st, a.route, u).(open := st.open - {k}, lines := st.lines + 1));
    SettleOpen(st, k, c);
  }

  /** The kinds that touch no route. */
  lemma OtherSound(st: State, after: State)
    requires Sound(st) && CapsSound(after)
    requires after.routes == st.routes && after.order == st.order && after.open == st.open && after.lines == st.lines + 1
    ensures Sound(after)
  {
    forall s
      ensures UsageSound(UsageOf(after, s), OpenReserve(after.open, s))
    {
      assert UsageSound(UsageOf(st, s), OpenReserve(st.open, s));
    }
  }

  lemma ApplyPriceSound(st: State, e: Entry)
    requires Sound(st) && st.lines > 0 && e.body.Price? && Apply(st, e).Some?
    ensures Sound(Apply(st, e).value.(lines := st.lines + 1))
  {
    var r := CheckPrice(e.body.route, e.body.list).value;
    PriceSound(st, e.body.route, e.body.list.tokens, r, e.seqNo);
  }

  lemma ApplyAdmitSound(st: State, e: Entry)
    requires Sound(st) && st.lines > 0 && e.body.Admit? && e.seqNo == st.lines + 1 && Apply(st, e).Some?
    ensures Sound(Apply(st, e).value.(lines := st.lines + 1))
  {
    AdmitSound(st, AdmissionOf(e));
  }

  lemma ApplySettleSound(st: State, e: Entry)
    requires Sound(st) && st.lines > 0 && e.body.Settle? && Apply(st, e).Some?
    ensures Sound(Apply(st, e).value.(lines := st.lines + 1))
  {
    SettleSound(st, e.body.admit, e.body.sent.value);
  }

  lemma ApplyOtherSound(st: State, e: Entry)
    requires Sound(st) && Apply(st, e).Some?
    requires e.body.Open? || e.body.Hosting? || e.body.Refused? || e.body.UnknownKind?
    requires e.seqNo == st.lines + 1
    ensures Sound(Apply(st, e).value.(lines := st.lines + 1))
  {
    OtherSound(st, Apply(st, e).value.(lines := st.lines + 1));
  }

  lemma ApplySound(st: State, e: Entry)
    requires Sound(st) && e.seqNo == st.lines + 1
    requires Apply(st, e).Some?
    ensures Sound(Apply(st, e).value.(lines := st.lines + 1))
  {
    match e.body
    case Price(_, _, _) => ApplyPriceSound(st, e);
    case Admit(_, _, _, _, _, _, _) => ApplyAdmitSound(st, e);
    case Settle(_, _, _, _) => ApplySettleSound(st, e);
    case _ => ApplyOtherSound(st, e);
  }

  /** Every ledger that replays, however it was written, reaches a sound state. */
  lemma {:induction false} ReplaySound(lines: seq<Entry>)
    requires Replay(lines).Some?
    ensures Replay(lines).value.lines == |lines|
    ensures lines == [] ==> Replay(lines).value == FRESH
    ensures Sound(Replay(lines).value)
    decreases |lines|
  {
    if lines == [] {
      FreshSound();
    } else {
      var prior := lines[..|lines| - 1];
      ReplaySound(prior);
      ApplySound(Replay(prior).value, lines[|lines| - 1]);
    }
  }

  lemma ReplayAppend(lines: seq<Entry>, e: Entry)
    requires Replay(lines).Some?
    ensures Replay(lines + [e]) == Next(lines, Replay(lines).value, e)
  {
    assert (lines + [e])[..|lines|] == lines;
  }

  lemma {:induction false} ReplayPrefix(lines: seq<Entry>, k: nat)
    requires Replay(lines).Some? && k <= |lines|
    ensures Replay(lines[..k]).Some?
    decreases |lines|
  {
    if k < |lines| {
      var prior := lines[..|lines| - 1];
      ReplayPrefix(prior, k);
      assert prior[..k] == lines[..k];
    } else {
      assert lines[..k] == lines;
    }
  }

  /** Every line of a ledger that replays continues the lines before it. */
  lemma {:induction false} ReplayChain(lines: seq<Entry>, k: nat)
    requires Replay(lines).Some? && k < |lines|
    ensures lines[k].seqNo == k + 1 && lines[k].prev == Sha(lines[..k])
    ensures lines[k].body.Open? <==> k == 0
  {
    ReplayPrefix(lines, k + 1);
    var upTo := lines[..k + 1];
    assert upTo[..k] == lines[..k];
    ReplayPrefix(lines, k);
    ReplaySound(lines[..k]);
  }

  // ----- liability is always defined

  lemma UsageLiabilityDefined(st: State, r: string, route: string, tok: Tokens, extra: int)
    requires Sound(st)
    requires extra > 0 ==> PriceAt(st, route, tok).Some?
    ensures RouteLiabilityOf(st, r, route, tok, extra).Some?
  {
    assert UsageSound(UsageOf(st, r), OpenReserve(st.open, r));
  }

  lemma {:induction false} LiabilityUpToDefined(st: State, k: nat, route: string, tok: Tokens, extra: int)
    requires Sound(st) && k <= |st.order|
    requires extra > 0 ==> PriceAt(st, route, tok).Some?
    ensures LiabilityUpTo(st, k, route, tok, extra).Some?
  {
    if k > 0 {
      LiabilityUpToDefined(st, k - 1, route, tok, extra);
      UsageLiabilityDefined(st, st.order[k - 1], route, tok, extra);
    }
  }

  /** Conservation on every ledger that replays: reservations are the open
      admissions, per-token charges sum to the charge, every charge has a price, and so
      the liability is defined. */
  lemma Conservation(lines: seq<Entry>, r: string)
    requires Parse(lines).Some?
    ensures var st := Parse(lines).value;
      && UsageOf(st, r).reserved == OpenReserve(st.open, r)
      && ChargeSum(UsageOf(st, r).charged) == UsageOf(st, r).Charged()
      && Priced(UsageOf(st, r).charged, UsageOf(st, r).prices)
      && LiabilityOf(st, "", Tokens(0, 0), 0).Some?
      && (forall tok, n :: PriceAt(st, r, tok).Some? && (st.routeCaps == map[] || r in st.routeCaps)
           ==> PositionOf(st, r, tok, n).Ok?)
  {
    ReplaySound(lines);
    var st := Parse(lines).value;
    assert UsageSound(UsageOf(st, r), OpenReserve(st.open, r));
    LiabilityUpToDefined(st, |st.order|, "", Tokens(0, 0), 0);
    forall tok, n | PriceAt(st, r, tok).Some? && (st.routeCaps == map[] || r in st.routeCaps)
      ensures PositionOf(st, r, tok, n).Ok?
    {
      LiabilityUpToDefined(st, |st.order|, r, tok, n);
      UsageLiabilityDefined(st, r, r, tok, n);
    }
  }
}
