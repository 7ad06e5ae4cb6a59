// When the ledger admits (internal/admission/ledger.go): exactly which admissions
// are written, and why each of the others is refused.
module LedgerDecision {
  import opened Prelude
  import opened Ledger
  import opened LedgerState
  import opened LedgerRuns
  import opened LedgerCaps
  import opened LedgerMeaning
  import opened LedgerReading

  /** An admission of n requests as a next line, wherever the caps stand. */
  function Trial(st: State, route: string, tok: Tokens, n: int, p: Usd): Entry {
    var at := Position(n, n, 0.0, None);
    Entry(st.lines + 1, Sha([]), 0, Admit(route, tok, p, Cell, n, at, at))
  }

  lemma TrialApplies(st: State, route: string, tok: Tokens, n: int, p: Usd)
    requires Sound(st) && st.lines > 0 && route != "" && n >= 1 && PriceAt(st, route, tok) == Some(p)
    ensures Apply(st, Trial(st, route, tok, n, p)).Some?
    ensures var after := Apply(st, Trial(st, route, tok, n, p)).value;
      after.routeCaps == st.routeCaps && PriceAt(after, route, tok) == Some(p)
  {
    AdmittedUsage(st, Trial(st, route, tok, n, p));
  }

  lemma CappedPosition(st: State, route: string, tok: Tokens)
    requires Sound(st) && PriceAt(st, route, tok).Some? && (st.routeCaps == map[] || route in st.routeCaps)
    ensures PositionOf(st, route, tok, 0).Ok?
  {
    LiabilityIs(st, route, tok);
    RouteWorthIs(st, route, route, tok);
  }

  /** q is the state's position with n requests more, each at p. */
  ghost predicate Projects(st: State, route: string, n: int, p: Usd, q: Position) {
    && q.routeRequests == UsageOf(st, route).Charged() + n && q.totalRequests == Total(st) + n
    && q.liability == Liabilities(st) + Times(n, p)
    && (route in st.routeCaps ==> q.routeLiability == Some(RouteWorth(st, route) + Times(n, p)))
  }

  /** What an admission projects: n more requests, each at the highest recorded price. */
  lemma ProjectedPosition(st: State, route: string, tok: Tokens, n: int, p: Usd)
    requires Sound(st) && st.lines > 0 && route != "" && n >= 1 && PriceAt(st, route, tok) == Some(p)
    requires st.routeCaps == map[] || route in st.routeCaps
    ensures PositionOf(st, route, tok, n).Ok? && Projects(st, route, n, p, PositionOf(st, route, tok, n).value)
  {
    TrialApplies(st, route, tok, n, p);
    TrialPlace(st, route, tok, n, p);
    TrialAmounts(st, route, tok, n, p);
    var after := Apply(st, Trial(st, route, tok, n, p)).value;
    SumsUp(st, after, route, n, p, PositionOf(st, route, tok, n).value);
  }

  lemma SumsUp(st: State, after: State, route: string, n: int, p: Usd, q: Position)
    requires Placed(st, after, route, q) && UsageOf(after, route).Charged() == UsageOf(st, route).Charged() + n
    requires Total(after) == Total(st) + n && Liabilities(after) == Liabilities(st) + Times(n, p)
    requires RouteWorth(after, route) == RouteWorth(st, route) + Times(n, p)
    ensures Projects(st, route, n, p, q)
  {
  }

  /** q is where the route stands in the state after. */
  ghost predicate Placed(st: State, after: State, route: string, q: Position) {
    && q.routeRequests == UsageOf(after, route).Charged() && q.totalRequests == Total(after)
    && q.liability == Liabilities(after)
    && (route in st.routeCaps ==> q.routeLiability == Some(RouteWorth(after, route)))
  }

  lemma TrialPlace(st: State, route: string, tok: Tokens, n: int, p: Usd)
    requires Sound(st) && (st.routeCaps == map[] || route in st.routeCaps)
    requires var a := Apply(st, Trial(st, route, tok, n, p));
      a.Some? && a.value.routeCaps == st.routeCaps && PriceAt(a.value, route, tok) == Some(p)
    ensures PositionOf(st, route, tok, n).Ok?
    ensures Placed(st, Apply(st, Trial(st, route, tok, n, p)).value, route, PositionOf(st, route, tok, n).value)
  {
    TrialPosition(st, Trial(st, route, tok, n, p));
  }

  lemma TrialAmounts(st: State, route: string, tok: Tokens, n: int, p: Usd)
    requires Sound(st) && Apply(st, Trial(st, route, tok, n, p)).Some?
    ensures var after := Apply(st, Trial(st, route, tok, n, p)).value;
      && UsageOf(after, route).Charged() == UsageOf(st, route).Charged() + n && Total(after) == Total(st) + n
      && RouteWorth(after, route) == RouteWorth(st, route) + Times(n, p)
      && Liabilities(after) == Liabilities(st) + Times(n, p)
  {
    var e := Trial(st, route, tok, n, p);
    LineEffect(st, e);
    RouteEffect(st, e, route);
  }

  /** A trial line's projected position is that of the state with the line in it. */
  lemma TrialPosition(st: State, e: Entry)
    requires Sound(st) && e.body.Admit? && e.seqNo == st.lines + 1 && Apply(st, e).Some?
    requires st.routeCaps == map[] || e.body.route in st.routeCaps
    requires Apply(st, e).value.routeCaps == st.routeCaps && PriceAt(Apply(st, e).value, e.body.route, e.body.tokens).Some?
    ensures var after, route := Apply(st, e).value, e.body.route;
      && PositionOf(st, route, e.body.tokens, e.body.reserve).Ok?
      && Placed(st, after, route, PositionOf(st, route, e.body.tokens, e.body.reserve).value)
  {
    var after := Apply(st, e).value;
    ApplySound(st, e);
    StatePosition(after, st.lines + 1, e.body.route, e.body.tokens);
    ProjectionExact(st, e);
  }

  lemma StatePosition(st: State, n: nat, route: string, tok: Tokens)
    requires Sound(st.(lines := n)) && PriceAt(st, route, tok).Some? && (st.routeCaps == map[] || route in st.routeCaps)
    ensures PositionOf(st, route, tok, 0).Ok?
    ensures Placed(st, st, route, PositionOf(st, route, tok, 0).value)
  {
    CappedPosition(st.(lines := n), route, tok);
    PositionMeaning(st.(lines := n), route, tok);
    SamePosition(st, n, route, tok);
    SameButLines(st, n);
  }

  /** Why n more requests at tok cannot be admitted, each at the route's highest price:
      the first thing missing or cap passed, in the ledger's order. */
  ghost function Why(st: State, route: string, tok: Tokens, n: int): Option<Reason> {
    if st.routeCaps != map[] && route !in st.routeCaps then Some(NoRouteCap)
    else if PriceAt(st, route, tok).None? then Some(NoPrice)
    else
      var added := Times(n, PriceAt(st, route, tok).value);
      if st.caps.routeRequests > 0 && UsageOf(st, route).Charged() + n > st.caps.routeRequests then Some(RouteRequests)
      else if st.caps.totalRequests > 0 && Total(st) + n > st.caps.totalRequests then Some(TotalRequests)
      else if route in st.routeCaps && RouteWorth(st, route) + added > st.routeCaps[route] then Some(RouteLiability)
      else if Liabilities(st) + added > st.liabilityCap then Some(Liability)
      else None
  }

  /** A call the ledger decides on: a positive number of requests at positive bounds, a
      window's or its replacement's that of the caps, and at the ledger's own revision. */
  ghost predicate WellAsked(st: State, route: string, purpose: Purpose, n: int, tok: Tokens, rev: Option<int>) {
    && route != "" && tok.input >= 1 && tok.output >= 1 && n >= 1 && !purpose.Unknown?
    && (purpose.Window? || purpose.Replacement? ==> n == st.caps.windowRequests)
    && (rev.Some? ==> rev.value == PriceRevision(st, route))
  }

  lemma AskedIs(st: State, purpose: Purpose, n: int)
    requires Sound(st) && st.lines > 0
    ensures ReserveAllowed(st.caps, purpose, n)
       <==> n >= 1 && !purpose.Unknown? && (purpose.Window? || purpose.Replacement? ==> n == st.caps.windowRequests)
  {
  }

  lemma DraftWithin(st: State, route: string, purpose: Purpose, n: int, tok: Tokens, rev: Option<int>, q: Position)
    requires WellAsked(st, route, purpose, n, tok, rev)
    requires PositionOf(st, route, tok, 0).Ok? && PositionOf(st, route, tok, n) == Ok(q)
    ensures var d := DraftAdmit(st, route, purpose, n, tok, rev);
      if CapPassed(st, route, q).None? then d.Line? else d.Refusal? && d.reason == CapPassed(st, route, q).value
  {
  }

  lemma DraftNowhere(st: State, route: string, purpose: Purpose, n: int, tok: Tokens, rev: Option<int>)
    requires WellAsked(st, route, purpose, n, tok, rev)
    requires (st.routeCaps != map[] && route !in st.routeCaps) || PriceAt(st, route, tok).None?
    ensures var d := DraftAdmit(st, route, purpose, n, tok, rev);
      d.Refusal? && Some(d.reason) == Why(st, route, tok, n)
  {
  }

  lemma WhyCap(st: State, route: string, tok: Tokens, n: int, p: Usd, q: Position)
    requires PriceAt(st, route, tok) == Some(p) && (st.routeCaps == map[] || route in st.routeCaps)
    requires Projects(st, route, n, p, q)
    ensures CapPassed(st, route, q) == Why(st, route, tok, n)
  {
  }

  /** The ledger's decision on what it is asked well: a draft, or the reason there is none. */
  lemma DraftExactly(st: State, route: string, purpose: Purpose, n: int, tok: Tokens, rev: Option<int>)
    requires Sound(st) && st.lines > 0 && WellAsked(st, route, purpose, n, tok, rev)
    ensures var d := DraftAdmit(st, route, purpose, n, tok, rev);
      match Why(st, route, tok, n)
      case None => d.Line?
      case Some(reason) => d.Refusal? && d.reason == reason
  {
    if (st.routeCaps != map[] && route !in st.routeCaps) || PriceAt(st, route, tok).None? {
      DraftNowhere(st, route, purpose, n, tok, rev);
    } else {
      DraftPriced(st, route, purpose, n, tok, rev);
    }
  }

  lemma DraftPriced(st: State, route: string, purpose: Purpose, n: int, tok: Tokens, rev: Option<int>)
    requires Sound(st) && st.lines > 0 && WellAsked(st, route, purpose, n, tok, rev)
    requires (st.routeCaps == map[] || route in st.routeCaps) && PriceAt(st, route, tok).Some?
    ensures var d := DraftAdmit(st, route, purpose, n, tok, rev);
      match Why(st, route, tok, n)
      case None => d.Line?
      case Some(reason) => d.Refusal? && d.reason == reason
  {
    var p := PriceAt(st, route, tok).value;
    ProjectedPosition(st, route, tok, n, p);
    CappedPosition(st, route, tok);
    var q := PositionOf(st, route, tok, n).value;
    WhyCap(st, route, tok, n, p, q);
    DraftWithin(st, route, purpose, n, tok, rev, q);
  }

  /** What the line of a decided admission says: the price its requests count at and the positions
      before and after, or the reason there is none. */
  ghost predicate Decided(st: State, body: Body, route: string, purpose: Purpose, n: int, tok: Tokens) {
    match Why(st, route, tok, n)
    case None =>
      body.Admit? && body.route == route && body.tokens == tok && body.purpose == purpose && body.reserve == n
      && PriceAt(st, route, tok) == Some(body.perRequest) && body.perRequest >= 0.0
      && Projects(st, route, 0, body.perRequest, body.before) && Projects(st, route, n, body.perRequest, body.after)
    case Some(reason) => body == Refused(route, tok, purpose, n, reason)
  }

  /** An admission is written exactly when the ledger with it would keep every cap. A
      refusal is one line, names the first cap that would break, and changes nothing else. */
  lemma AdmitExactly(lines: seq<Entry>, route: string, purpose: Purpose, n: int, tok: Tokens, rev: Option<int>, time: int)
    requires Parse(lines).Some? && WellAsked(Parse(lines).value, route, purpose, n, tok, rev)
    ensures var st := Parse(lines).value;
      var (file, outcome) := Perform(lines, Reserve(route, purpose, n, tok, rev), time);
      && |file| == |lines| + 1 && Decided(st, file[|lines|].body, route, purpose, n, tok)
      && match Why(st, route, tok, n)
         case None => outcome.Written?
         case Some(reason) => outcome == RefusedFor(reason) && Parse(file) == Some(st.(lines := |file|))
  {
    var st := Parse(lines).value;
    ReplaySound(lines);
    DraftExactly(st, route, purpose, n, tok, rev);
    if Why(st, route, tok, n).None? {
      DraftPlaces(st, route, purpose, n, tok, rev);
    }
    DraftDecides(st, route, purpose, n, tok, rev);
    if Why(st, route, tok, n).Some? {
      RefusedNext(lines, st, Stamp(lines, time, DraftAdmit(st, route, purpose, n, tok, rev).body));
    } else {
      WrittenAdmit(st, route, purpose, n, tok, rev);
    }
  }

  lemma DraftDecides(st: State, route: string, purpose: Purpose, n: int, tok: Tokens, rev: Option<int>)
    requires var d := DraftAdmit(st, route, purpose, n, tok, rev);
      match Why(st, route, tok, n)
      case None => d.Line?
      case Some(reason) => d.Refusal? && d.reason == reason
    requires Why(st, route, tok, n).None? ==> Places(st, DraftAdmit(st, route, purpose, n, tok, rev).body, route, n, tok)
    ensures Decided(st, DraftAdmit(st, route, purpose, n, tok, rev).body, route, purpose, n, tok)
  {
  }

  /** An admit line's positions are the present one, and that with its requests. */
  ghost predicate Places(st: State, body: Body, route: string, n: int, tok: Tokens) {
    && body.Admit? && PriceAt(st, route, tok).Some?
    && Projects(st, route, 0, PriceAt(st, route, tok).value, body.before)
    && Projects(st, route, n, PriceAt(st, route, tok).value, body.after)
  }

  lemma DraftPlaces(st: State, route: string, purpose: Purpose, n: int, tok: Tokens, rev: Option<int>)
    requires Sound(st) && st.lines > 0 && WellAsked(st, route, purpose, n, tok, rev) && Why(st, route, tok, n).None?
    requires DraftAdmit(st, route, purpose, n, tok, rev).Line?
    ensures Places(st, DraftAdmit(st, route, purpose, n, tok, rev).body, route, n, tok)
  {
    var p := PriceAt(st, route, tok).value;
    ProjectedPosition(st, route, tok, n, p);
    PresentPosition(st, route, tok, p);
    DraftPositions(st, route, purpose, n, tok, rev);
  }

  lemma PresentPosition(st: State, route: string, tok: Tokens, p: Usd)
    requires Sound(st) && PriceAt(st, route, tok).Some? && (st.routeCaps == map[] || route in st.routeCaps)
    ensures PositionOf(st, route, tok, 0).Ok? && Projects(st, route, 0, p, PositionOf(st, route, tok, 0).value)
  {
    CappedPosition(st, route, tok);
    PositionMeaning(st, route, tok);
  }

  lemma DraftPositions(st: State, route: string, purpose: Purpose, n: int, tok: Tokens, rev: Option<int>)
    requires DraftAdmit(st, route, purpose, n, tok, rev).Line?
    ensures var b := DraftAdmit(st, route, purpose, n, tok, rev).body;
      b.Admit? && PositionOf(st, route, tok, 0) == Ok(b.before) && PositionOf(st, route, tok, n) == Ok(b.after)
  {
  }

  /** What is not asked well writes nothing: it meets a new price, or fails. */
  lemma NotAsked(lines: seq<Entry>, route: string, purpose: Purpose, n: int, tok: Tokens, rev: Option<int>, time: int)
    requires Parse(lines).Some? && !WellAsked(Parse(lines).value, route, purpose, n, tok, rev)
    ensures var have := PriceRevision(Parse(lines).value, route);
      Perform(lines, Reserve(route, purpose, n, tok, rev), time)
        == (lines, if route != "" && rev.Some? && rev.value != have then PriceChanged(rev.value, have) else Failed)
  {
    ReplaySound(lines);
    AskedIs(Parse(lines).value, purpose, n);
  }

  lemma RefusedNext(lines: seq<Entry>, st: State, e: Entry)
    requires Parse(lines) == Some(st) && st.lines == |lines| && e.body.Refused?
    requires e.seqNo == |lines| + 1 && e.prev == Sha(lines)
    ensures Parse(lines + [e]) == Some(st.(lines := |lines| + 1))
  {
    ReplayAppend(lines, e);
  }

  // ----- settlements, prices and hosting

  /** The file has one line more, and it still reads. */
  ghost predicate OneMore(lines: seq<Entry>, file: seq<Entry>) {
    |file| == |lines| + 1 && lines <= file && Parse(file).Some?
  }

  /** A settlement of an open admission, with counts its purpose sends. */
  ghost predicate Settleable(lines: seq<Entry>, a: Admission, sent: Counts) {
    Unsettled(lines, a.seqNo) && AdmissionOf(lines[a.seqNo - 1]) == a && Belong(a.purpose, sent)
  }

  /** Each class rises by what was sent in it, a replacement window's warm-up and measured
      requests apart, and the reservation is given back. */
  ghost predicate Swapped(was: Usage, now: Usage, a: Admission, sent: Counts) {
    && now.probe == was.probe + sent.probe && now.development == was.development + sent.development
    && now.reserved == was.reserved - a.reserve
    && (a.purpose.Replacement? ==>
          now.warmup == was.warmup && now.measured == was.measured
          && now.replacement == was.replacement + sent.warmup + sent.measured)
    && (!a.purpose.Replacement? ==>
          now.warmup == was.warmup + sent.warmup && now.measured == was.measured + sent.measured
          && now.replacement == was.replacement)
    && (forall tok :: ChargeIn(now, tok) == ChargeIn(was, tok)
                        + if tok == a.tokens then sent.probe + sent.development + sent.warmup + sent.measured - a.reserve else 0)
  }

  ghost function ChargeIn(u: Usage, tok: Tokens): int { if tok in u.charged then u.charged[tok] else 0 }

  /** What a written settlement leaves: its own admission settled with the counts sent, no
      other settled or opened, its route's usage swapped and no other changed. */
  ghost predicate SettledAs(lines: seq<Entry>, file: seq<Entry>, a: Admission, sent: Counts)
    requires Parse(lines).Some?
  {
    && OneMore(lines, file)
    && (forall n :: SettledWith(file, n) == if n == a.seqNo then Some(sent) else SettledWith(lines, n))
    && Swapped(UsageOf(Parse(lines).value, a.route), UsageOf(Parse(file).value, a.route), a, sent)
    && (forall r :: r != a.route ==> UsageOf(Parse(file).value, r) == UsageOf(Parse(lines).value, r))
    && Parse(file).value.open == Parse(lines).value.open - {a.seqNo}
  }

  /** A settlement is written exactly where its admission is open as it says and the counts
      belong to its purpose; an overrun is written too, and an error. */
  lemma SettleExactly(lines: seq<Entry>, a: Admission, sent: Counts, time: int)
    requires Parse(lines).Some?
    ensures var (file, outcome) := Perform(lines, SettleOp(a, sent), time);
      if Settleable(lines, a, sent) then
        && SettledAs(lines, file, a, sent) && file[|lines|].body.Settle?
        && outcome == (if sent.probe + sent.development + sent.warmup + sent.measured > a.reserve
                       then Overran(file[|lines|]) else Written(file[|lines|]))
      else file == lines && outcome == Failed
  {
    OpenMeaning(lines, a.seqNo);
    BelongExactly(a.purpose, sent);
    SettlePerforms(lines, a, sent, time);
    if Settleable(lines, a, sent) {
      var e := SettleLine(lines, a, sent, time);
      PerformParses(lines, SettleOp(a, sent), time);
      AfterLine(lines, e);
      SettledFile(lines, e, a, sent);
    }
  }

  function SettleLine(lines: seq<Entry>, a: Admission, sent: Counts, time: int): Entry {
    var over := sent.probe + sent.development + sent.warmup + sent.measured > a.reserve;
    Stamp(lines, time, Settle(a.route, a.seqNo, Some(sent), over))
  }

  lemma SettlePerforms(lines: seq<Entry>, a: Admission, sent: Counts, time: int)
    requires Parse(lines).Some?
    ensures var st, e := Parse(lines).value, SettleLine(lines, a, sent, time);
      Perform(lines, SettleOp(a, sent), time)
        == if a.seqNo in st.open && st.open[a.seqNo] == a && CountsAllowed(a.purpose, sent)
           then (lines + [e], if e.body.overrun then Overran(e) else Written(e)) else (lines, Failed)
  {
  }

  lemma SettledFile(lines: seq<Entry>, e: Entry, a: Admission, sent: Counts)
    requires Parse(lines).Some? && Apply(Parse(lines).value, e).Some?
    requires Parse(lines + [e]) == Some(Apply(Parse(lines).value, e).value.(lines := |lines| + 1))
    requires e.body.Settle? && e.body.route == a.route && e.body.admit == a.seqNo && e.body.sent == Some(sent)
    requires a.seqNo in Parse(lines).value.open && Parse(lines).value.open[a.seqNo] == a
    ensures SettledAs(lines, lines + [e], a, sent)
  {
    var st := Parse(lines).value;
    forall n
      ensures SettledWith(lines + [e], n) == if n == a.seqNo then Some(sent) else SettledWith(lines, n)
    {
      SettledStep(lines, e, n);
    }
    SettledUsages(st, e, a, sent, |lines| + 1);
  }

  lemma SettledUsages(st: State, e: Entry, a: Admission, sent: Counts, n: nat)
    requires Apply(st, e).Some? && e.body.Settle? && e.body.route == a.route && e.body.admit == a.seqNo
    requires e.body.sent == Some(sent) && a.seqNo in st.open && st.open[a.seqNo] == a
    ensures var after := Apply(st, e).value.(lines := n);
      && Swapped(UsageOf(st, a.route), UsageOf(after, a.route), a, sent)
      && (forall r :: r != a.route ==> UsageOf(after, r) == UsageOf(st, r))
      && after.open == st.open - {a.seqNo}
  {
  }

  /** A price is recorded exactly where its route and list are listable, bounds of zero
      taking the ledger's; its line carries what a request costs. */
  lemma PriceRecordedExactly(lines: seq<Entry>, route: string, p: ListPrice, time: int)
    requires Parse(lines).Some?
    ensures var (file, outcome) := Perform(lines, Op.RecordPrice(route, p), time);
      var caps := Parse(lines).value.caps;
      var q := if p.tokens.input == 0 && p.tokens.output == 0 then p.(tokens := Tokens(caps.maxInput, caps.maxOutput)) else p;
      if Listable(route, q) then
        && OneMore(lines, file) && outcome == Written(file[|lines|])
        && file[|lines|].body.Price? && file[|lines|].body.route == route && file[|lines|].body.list == q
        && Costs(q, file[|lines|].body.perRequest)
      else file == lines && outcome == Failed
  {
    var q := PriceDefaults(Parse(lines).value, p);
    PriceExactly(route, q);
    PerformParses(lines, Op.RecordPrice(route, p), time);
  }

  /** Hosting is recorded exactly where it is a positive amount with a note, and adds exactly
      that to the liability and nothing to any route. */
  lemma HostingExactly(lines: seq<Entry>, usd: Decimal, noteEmpty: bool, time: int)
    requires Parse(lines).Some?
    ensures var (file, outcome) := Perform(lines, Op.RecordHosting(usd, noteEmpty), time);
      if usd.Dec? && usd.value > 0.0 && !noteEmpty then
        && OneMore(lines, file) && outcome == Written(file[|lines|])
        && Liabilities(Parse(file).value) == Liabilities(Parse(lines).value) + usd.value
        && forall r :: RouteWorth(Parse(file).value, r) == RouteWorth(Parse(lines).value, r)
      else file == lines && outcome == Failed
  {
    if usd.Dec? && usd.value > 0.0 && !noteEmpty {
      var e := Stamp(lines, time, Hosting(usd));
      PerformParses(lines, Op.RecordHosting(usd, noteEmpty), time);
      AfterLine(lines, e);
      forall r
        ensures RouteWorth(Parse(lines + [e]).value, r) == RouteWorth(Parse(lines).value, r)
        ensures Liabilities(Parse(lines + [e]).value) == Liabilities(Parse(lines).value) + usd.value
      {
        LedgerLineEffect(lines, e, r);
      }
    }
  }
}
