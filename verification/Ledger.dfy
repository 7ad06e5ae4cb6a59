// The admission ledger (internal/admission/ledger.go) on values: its lines, the
// state a replay of them reaches, and what every operation writes.
module Ledger {
  import opened Prelude

  // ----- lines

  datatype Tokens = Tokens(input: int, output: int)

  type Usd = r: real | r >= 0.0

  /** A decimal number as written: its exact value, or text that is none. */
  datatype Decimal = Dec(value: Usd) | NotDecimal

  datatype Purpose = Probe | Development | Window | Replacement | Cell | Unknown

  datatype Counts = Counts(probe: int, development: int, warmup: int, measured: int) {
    function Total(): int { probe + development + warmup + measured }
  }

  /** A list price per million tokens, the token bounds it is taken at, and
      whether its source is a URL; retrieved is the date's day number, None for
      text that is no date. */
  datatype ListPrice = ListPrice(input: Decimal, output: Decimal, tokens: Tokens,
                                 sourceOk: bool, retrieved: Option<nat>)

  datatype Caps = Caps(routeRequests: int, totalRequests: int, liability: Decimal,
                       routeLiability: map<string, Decimal>,
                       windowRequests: int, maxInput: int, maxOutput: int)

  datatype Position = Position(routeRequests: int, totalRequests: int,
                               liability: real, routeLiability: Option<real>)

  datatype Reason =
    | NoRouteCap | NoPrice | Unpriced
    | RouteRequests | TotalRequests | RouteLiability | Liability

  datatype Body =
    | Open(version: int, caps: Option<Caps>)
    | Price(route: string, list: ListPrice, perRequest: real)
    | Hosting(usd: Decimal)
    | Admit(route: string, tokens: Tokens, perRequest: real, purpose: Purpose, reserve: int,
            before: Position, after: Position)
    | Refused(route: string, tokens: Tokens, purpose: Purpose, reserve: int, reason: Reason)
    | Settle(route: string, admit: int, sent: Option<Counts>, overrun: bool)
    | UnknownKind

  /** The SHA-256 of the bytes of some lines, idealised: equal only for equal lines. */
  datatype Digest = Sha(lines: seq<Entry>)

  datatype Entry = Entry(seqNo: int, prev: Digest, time: int, body: Body)

  // ----- state

  datatype Admission = Admission(seqNo: int, route: string, purpose: Purpose, reserve: int, tokens: Tokens)

  /** A route's charge: the requests sent by class, those of replacement windows
      apart, and the unsettled reservations; charged counts them all by token bounds. */
  datatype Usage = Usage(route: string, probe: int, development: int, warmup: int, measured: int, replacement: int,
                         reserved: int, prices: map<Tokens, Usd>, priceSeq: int, charged: map<Tokens, int>) {
    function Charged(): int { probe + development + warmup + measured + replacement + reserved }
  }

  function NewUsage(route: string): Usage {
    Usage(route, 0, 0, 0, 0, 0, 0, map[], 0, map[])
  }

  datatype State = State(lines: nat, caps: Caps, liabilityCap: Usd, routeCaps: map<string, Usd>,
                         routes: map<string, Usage>, order: seq<string>, hosting: Usd,
                         open: map<int, Admission>)

  const NO_CAPS := Caps(0, 0, NotDecimal, map[], 0, 0, 0)

  const FRESH := State(0, NO_CAPS, 0.0, map[], map[], [], 0.0, map[])

  function UsageOf(st: State, route: string): Usage {
    if route in st.routes then st.routes[route] else NewUsage(route)
  }

  /** Store route's usage, listing a route seen first. */
  function Put(st: State, route: string, u: Usage): State {
    st.(routes := st.routes[route := u],
        order := if route in st.routes then st.order else st.order + [route])
  }

  function PriceAt(st: State, route: string, tok: Tokens): Option<Usd> {
    if tok in UsageOf(st, route).prices then Some(UsageOf(st, route).prices[tok]) else None
  }

  function PriceRevision(st: State, route: string): int {
    UsageOf(st, route).priceSeq
  }

  /** The liability n requests at tok add: each at the highest recorded price. */
  function ReservationUSD(st: State, route: string, n: int, tok: Tokens): Option<real> {
    match PriceAt(st, route, tok)
    case None => None
    case Some(p) => Some(Times(n, p))
  }

  // ----- checks

  predicate PositiveDecimal(d: Decimal) {
    d.Dec? && d.value > 0.0
  }

  predicate ValidCaps(c: Caps) {
    && c.routeRequests >= 0 && c.totalRequests >= 0 && c.windowRequests >= 0
    && c.maxInput >= 0 && c.maxOutput >= 0 && ((c.maxInput == 0) == (c.maxOutput == 0))
    && PositiveDecimal(c.liability)
    && forall name :: name in c.routeLiability ==>
         && name != ""
         && PositiveDecimal(c.routeLiability[name])
         && c.routeLiability[name].value <= c.liability.value
  }

  function RouteCapsOf(c: Caps): map<string, Usd>
    requires ValidCaps(c)
  {
    map name | name in c.routeLiability :: c.routeLiability[name].value
  }

  function PerRequest(input: Usd, output: Usd, tok: Tokens): real {
    (Times(tok.input, input) + Times(tok.output, output)) / 1_000_000.0
  }

  function CheckPrice(route: string, p: ListPrice): Option<Usd> {
    if route == "" || p.tokens.input < 1 || p.tokens.output < 1
      || p.input.NotDecimal? || p.output.NotDecimal? || !p.sourceOk || p.retrieved.None?
    then None
    else
      TimesMono(0, p.tokens.input, p.input.value, p.input.value);
      TimesMono(0, p.tokens.output, p.output.value, p.output.value);
      Some(PerRequest(p.input.value, p.output.value, p.tokens))
  }

  predicate CountsAllowed(purpose: Purpose, c: Counts) {
    && c.probe >= 0 && c.development >= 0 && c.warmup >= 0 && c.measured >= 0
    && match purpose
       case Probe => c.development + c.warmup + c.measured == 0
       case Development => c.probe + c.warmup + c.measured == 0
       case Unknown => false
       case _ => c.development == 0
  }

  predicate ReserveAllowed(c: Caps, purpose: Purpose, n: int) {
    match purpose
    case Unknown => false
    case Window => c.windowRequests != 0 && n == c.windowRequests
    case Replacement => c.windowRequests != 0 && n == c.windowRequests
    case _ => n >= 1
  }

  // ----- replay

  function WithPrice(u: Usage, tok: Tokens, r: Usd, line: int): Usage {
    u.(prices := if tok in u.prices && r <= u.prices[tok] then u.prices else u.prices[tok := r],
       priceSeq := line)
  }

  function ChargedMore(charged: map<Tokens, int>, tok: Tokens, n: int): map<Tokens, int> {
    charged[tok := (if tok in charged then charged[tok] else 0) + n]
  }

  function WithReserve(u: Usage, tok: Tokens, n: int): Usage {
    u.(reserved := u.reserved + n, charged := ChargedMore(u.charged, tok, n))
  }

  function WithSettled(u: Usage, a: Admission, c: Counts): Usage {
    var replaced := a.purpose.Replacement?;
    u.(reserved := u.reserved - a.reserve,
       charged := ChargedMore(u.charged, a.tokens, c.Total() - a.reserve),
       probe := u.probe + c.probe,
       development := u.development + c.development,
       replacement := u.replacement + (if replaced then c.warmup + c.measured else 0),
       warmup := u.warmup + (if replaced then 0 else c.warmup),
       measured := u.measured + (if replaced then 0 else c.measured))
  }

  function AdmissionOf(e: Entry): Admission
    requires e.body.Admit?
  {
    Admission(e.seqNo, e.body.route, e.body.purpose, e.body.reserve, e.body.tokens)
  }

  /** One entry checked against the state and added to it; None refuses the ledger. */
  ghost function Apply(st: State, e: Entry): Option<State> {
    if e.body.Open? != (e.seqNo == 1) then None else
    match e.body
    case Open(version, caps) =>
      if version != 1 || caps.None? || !ValidCaps(caps.value) then None
      else Some(st.(caps := caps.value, liabilityCap := caps.value.liability.value,
                    routeCaps := RouteCapsOf(caps.value)))
    case Price(route, list, perRequest) =>
      (match CheckPrice(route, list)
       case None => None
       case Some(r) =>
         if perRequest != r then None
         else Some(Put(st, route, WithPrice(UsageOf(st, route), list.tokens, r, e.seqNo))))
    case Hosting(usd) =>
      if usd.NotDecimal? then None else Some(st.(hosting := st.hosting + usd.value))
    case Admit(route, tokens, perRequest, purpose, reserve, _, _) =>
      if route == "" || reserve < 1
        || ((purpose.Window? || purpose.Replacement?) && reserve != st.caps.windowRequests)
        || purpose.Unknown?
        || PriceAt(st, route, tokens) != Some(perRequest)
      then None
      else
        Some(Put(st, route, WithReserve(UsageOf(st, route), tokens, reserve))
             .(open := st.open[e.seqNo := AdmissionOf(e)]))
    case Refused(_, _, _, _, _) => Some(st)
    case Settle(route, admit, sent, overrun) =>
      if admit !in st.open || sent.None? || st.open[admit].route != route then None else
      var a := st.open[admit];
      if !CountsAllowed(a.purpose, sent.value) || overrun != (sent.value.Total() > a.reserve) then None
      else Some(Put(st, route, WithSettled(UsageOf(st, route), a, sent.value)).(open := st.open - {admit}))
    case UnknownKind => None
  }

  /** The state after one more line, whose number and hash must continue prior. */
  ghost function Next(prior: seq<Entry>, st: State, e: Entry): Option<State> {
    if e.seqNo != st.lines + 1 || e.prev != Sha(prior) then None else
    match Apply(st, e)
    case None => None
    case Some(after) => Some(after.(lines := st.lines + 1))
  }

  ghost function Replay(lines: seq<Entry>): Option<State> {
    if lines == [] then Some(FRESH) else
    var prior := lines[..|lines| - 1];
    match Replay(prior)
    case None => None
    case Some(st) => Next(prior, st, lines[|lines| - 1])
  }

  ghost function Parse(lines: seq<Entry>): Option<State> {
    if lines == [] then None else Replay(lines)
  }

  // ----- charges and liabilities

  function ChargedWith(charged: map<Tokens, int>, tok: Tokens, extra: int): map<Tokens, int> {
    if extra > 0 then ChargedMore(charged, tok, extra) else charged
  }

  ghost function TermOf(n: map<Tokens, int>, p: map<Tokens, Usd>): Tokens -> real {
    (t: Tokens) => if t in n && t in p then Times(n[t], p[t]) else 0.0
  }

  /** Every counted request at its token bounds' price. */
  ghost function Worth(n: map<Tokens, int>, p: map<Tokens, Usd>): real {
    SumR(n.Keys, TermOf(n, p))
  }

  ghost predicate Priced(n: map<Tokens, int>, p: map<Tokens, Usd>) {
    forall t :: t in n && n[t] != 0 ==> t in p
  }

  /** The liability of a usage with extra more requests at tok; None is a charge with no price. */
  ghost function UsageLiability(u: Usage, tok: Tokens, extra: int): Option<real> {
    var n := ChargedWith(u.charged, tok, extra);
    if Priced(n, u.prices) then Some(Worth(n, u.prices)) else None
  }

  ghost function RouteLiabilityOf(st: State, r: string, route: string, tok: Tokens, extra: int): Option<real> {
    UsageLiability(UsageOf(st, r), tok, if r == route then extra else 0)
  }

  /** Hosting and the first k routes' liabilities. */
  ghost function LiabilityUpTo(st: State, k: nat, route: string, tok: Tokens, extra: int): Option<real>
    requires k <= |st.order|
  {
    if k == 0 then Some(st.hosting) else
    match (LiabilityUpTo(st, k - 1, route, tok, extra), RouteLiabilityOf(st, st.order[k - 1], route, tok, extra))
    case (Some(a), Some(b)) => Some(a + b)
    case _ => None
  }

  ghost function LiabilityOf(st: State, route: string, tok: Tokens, extra: int): Option<real> {
    LiabilityUpTo(st, |st.order|, route, tok, extra)
  }

  function TotalUpTo(st: State, k: nat): int
    requires k <= |st.order|
  {
    if k == 0 then 0 else TotalUpTo(st, k - 1) + UsageOf(st, st.order[k - 1]).Charged()
  }

  function Total(st: State): int {
    TotalUpTo(st, |st.order|)
  }

  ghost function PositionOf(st: State, route: string, tok: Tokens, extra: int): Result<Position, Reason> {
    if st.routeCaps != map[] && route !in st.routeCaps then Err(NoRouteCap)
    else if PriceAt(st, route, tok).None? then Err(NoPrice)
    else
      match LiabilityOf(st, route, tok, extra)
      case None => Err(Unpriced)
      case Some(liab) =>
        var n := extra + UsageOf(st, route).Charged();
        if st.routeCaps == map[] then Ok(Position(n, Total(st) + extra, liab, None))
        else match RouteLiabilityOf(st, route, route, tok, extra)
             case None => Err(Unpriced)
             case Some(rl) => Ok(Position(n, Total(st) + extra, liab, Some(rl)))
  }

  // ----- operations

  /** What an operation asks of the ledger. rev is AdmitAt's checked price revision. */
  datatype Op =
    | RecordPrice(route: string, list: ListPrice)
    | RecordHosting(usd: Decimal, noteEmpty: bool)
    | Reserve(route: string, purpose: Purpose, n: int, tok: Tokens, rev: Option<int>)
    | SettleOp(a: Admission, sent: Counts)

  datatype Draft =
    | Line(body: Body)
    | Refusal(body: Body, reason: Reason)
    | Stale(checked: int, ledger: int)
    | Invalid

  /** The first cap the projected position passes, in the order the ledger tests them. */
  function CapPassed(st: State, route: string, after: Position): Option<Reason> {
    if st.caps.routeRequests > 0 && after.routeRequests > st.caps.routeRequests then Some(RouteRequests)
    else if st.caps.totalRequests > 0 && after.totalRequests > st.caps.totalRequests then Some(TotalRequests)
    else if route in st.routeCaps && after.routeLiability.Some? && after.routeLiability.value > st.routeCaps[route]
    then Some(RouteLiability)
    else if after.liability > st.liabilityCap then Some(Liability)
    else None
  }

  ghost function DraftAdmit(st: State, route: string, purpose: Purpose, n: int, tok: Tokens, rev: Option<int>): Draft {
    if route == "" then Invalid
    else if rev.Some? && PriceRevision(st, route) != rev.value then Stale(rev.value, PriceRevision(st, route))
    else if tok.input < 1 || tok.output < 1 then Invalid
    else if !ReserveAllowed(st.caps, purpose, n) then Invalid
    else
      match (PositionOf(st, route, tok, 0), PositionOf(st, route, tok, n))
      case (Err(reason), _) => Refusal(Refused(route, tok, purpose, n, reason), reason)
      case (_, Err(reason)) => Refusal(Refused(route, tok, purpose, n, reason), reason)
      case (Ok(before), Ok(after)) =>
        match CapPassed(st, route, after)
        case Some(reason) => Refusal(Refused(route, tok, purpose, n, reason), reason)
        case None =>
          Line(Admit(route, tok, PriceAt(st, route, tok).value, purpose, n, before, after))
  }

  function PriceDefaults(st: State, p: ListPrice): ListPrice {
    if p.tokens == Tokens(0, 0) then p.(tokens := Tokens(st.caps.maxInput, st.caps.maxOutput)) else p
  }

  function DraftPrice(st: State, route: string, p: ListPrice): Draft {
    var q := PriceDefaults(st, p);
    match CheckPrice(route, q)
    case None => Invalid
    case Some(r) => Line(Price(route, q, r))
  }

  function DraftHosting(usd: Decimal, noteEmpty: bool): Draft {
    if !PositiveDecimal(usd) || noteEmpty then Invalid else Line(Hosting(usd))
  }

  function DraftSettle(st: State, a: Admission, sent: Counts): Draft {
    if a.seqNo !in st.open || st.open[a.seqNo] != a || !CountsAllowed(a.purpose, sent) then Invalid
    else Line(Settle(a.route, a.seqNo, Some(sent), sent.Total() > a.reserve))
  }

  ghost function DraftOf(st: State, op: Op): Draft {
    match op
    case RecordPrice(route, list) => DraftPrice(st, route, list)
    case RecordHosting(usd, noteEmpty) => DraftHosting(usd, noteEmpty)
    case Reserve(route, purpose, n, tok, rev) => DraftAdmit(st, route, purpose, n, tok, rev)
    case SettleOp(a, sent) => DraftSettle(st, a, sent)
  }

  /** body as the next line after prior. */
  function Stamp(prior: seq<Entry>, time: int, body: Body): Entry {
    Entry(|prior| + 1, Sha(prior), time, body)
  }

  datatype Outcome =
    | Written(line: Entry)
    | Overran(line: Entry)
    | RefusedFor(reason: Reason)
    | PriceChanged(checked: int, ledger: int)
    | Failed
    | Unreadable

  /** What writing a line returns: a settlement past its reservation is written, and an error. */
  function Recorded(e: Entry): Outcome {
    if e.body.Settle? && e.body.overrun then Overran(e) else Written(e)
  }

  /** One operation under the ledger's lock: the file after it, and what it returns. */
  ghost function Perform(lines: seq<Entry>, op: Op, time: int): (seq<Entry>, Outcome) {
    match Parse(lines)
    case None => (lines, Unreadable)
    case Some(st) =>
      match DraftOf(st, op)
      case Line(body) => (lines + [Stamp(lines, time, body)], Recorded(Stamp(lines, time, body)))
      case Refusal(body, reason) => (lines + [Stamp(lines, time, body)], RefusedFor(reason))
      case Stale(checked, ledger) => (lines, PriceChanged(checked, ledger))
      case Invalid => (lines, Failed)
  }

  /** A new ledger's file. */
  function Created(caps: Caps, time: int): seq<Entry> {
    [Stamp([], time, Open(1, Some(caps)))]
  }

  /** The file after any interleaving of the processes' operations, each atomic under the lock. */
  ghost function Run(lines: seq<Entry>, ops: seq<(Op, int)>): seq<Entry> {
    if ops == [] then lines else
    var last := ops[|ops| - 1];
    Perform(Run(lines, ops[..|ops| - 1]), last.0, last.1).0
  }
}
