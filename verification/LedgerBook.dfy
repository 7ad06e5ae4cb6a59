// The ledger as the processes run it: a state filled line by line, and a file
// each operation replays, checks and extends.
module LedgerBook {
  import opened Prelude
  import opened Ledger
  import opened LedgerState

  class Book {
    var lines: nat
    var caps: Caps
    var liabilityCap: Usd
    var routeCaps: map<string, Usd>
    var routes: map<string, Usage>
    var order: seq<string>
    var hosting: Usd
    var open: map<int, Admission>

    /** The book's fields as one value. */
    function Model(): State
      reads this
    {
      State(lines, caps, liabilityCap, routeCaps, routes, order, hosting, open)
    }

    constructor ()
      ensures Model() == FRESH
    {
      lines, caps, liabilityCap, routeCaps := 0, NO_CAPS, 0.0, map[];
      routes, order, hosting, open := map[], [], 0.0, map[];
    }

    /** Store a route's usage, listing a route seen first. */
    method Store(route: string, u: Usage)
      modifies this`routes, this`order
      ensures Model() == Put(old(Model()), route, u)
    {
      if route !in routes {
        order := order + [route];
      }
      routes := routes[route := u];
    }

    /** Add one checked entry; a refused entry changes nothing. */
    method Apply(e: Entry) returns (ok: bool)
      modifies this
      ensures ok <==> Ledger.Apply(old(Model()), e).Some?
      ensures Model() == if ok then Ledger.Apply(old(Model()), e).value else old(Model())
    {
      if e.body.Open? != (e.seqNo == 1) {
        return false;
      }
      match e.body
      case Open(version, c) =>
        if version != 1 || c.None? || !ValidCaps(c.value) {
          return false;
        }
        caps, liabilityCap, routeCaps := c.value, c.value.liability.value, RouteCapsOf(c.value);
        return true;
      case Price(route, list, perRequest) =>
        var r := CheckPrice(route, list);
        if r.None? || perRequest != r.value {
          return false;
        }
        var u := UsageOf(Model(), route);
        if list.tokens !in u.prices || r.value > u.prices[list.tokens] {
          u := u.(prices := u.prices[list.tokens := r.value]);
        }
        Store(route, u.(priceSeq := e.seqNo));
        return true;
      case Hosting(usd) =>
        if usd.NotDecimal? {
          return false;
        }
        hosting := hosting + usd.value;
        return true;
      case Admit(_, _, _, _, _, _, _) =>
        ok := ApplyAdmit(e);
      case Refused(_, _, _, _, _) =>
        return true;
      case Settle(_, _, _, _) =>
        ok := ApplySettle(e);
      case UnknownKind =>
        return false;
    }

    method ApplyAdmit(e: Entry) returns (ok: bool)
      requires e.body.Admit? && e.seqNo != 1
      modifies this`routes, this`order, this`open
      ensures ok <==> Ledger.Apply(old(Model()), e).Some?
      ensures Model() == if ok then Ledger.Apply(old(Model()), e).value else old(Model())
    {
      var route, tok, n := e.body.route, e.body.tokens, e.body.reserve;
      if route == "" || n < 1 {
        return false;
      }
      if (e.body.purpose.Window? || e.body.purpose.Replacement?) && n != caps.windowRequests {
        return false;
      }
      if e.body.purpose.Unknown? || PriceAt(Model(), route, tok) != Some(e.body.perRequest) {
        return false;
      }
      var u := UsageOf(Model(), route);
      u := u.(reserved := u.reserved + n, charged := ChargedMore(u.charged, tok, n));
      Store(route, u);
      open := open[e.seqNo := AdmissionOf(e)];
      return true;
    }

    method ApplySettle(e: Entry) returns (ok: bool)
      requires e.body.Settle? && e.seqNo != 1
      modifies this`routes, this`order, this`open
      ensures ok <==> Ledger.Apply(old(Model()), e).Some?
      ensures Model() == if ok then Ledger.Apply(old(Model()), e).value else old(Model())
    {
      var k, sent := e.body.admit, e.body.sent;
      if k !in open || sent.None? || open[k].route != e.body.route {
        return false;
      }
      var a, c := open[k], sent.value;
      if !CountsAllowed(a.purpose, c) || e.body.overrun != (c.Total() > a.reserve) {
        return false;
      }
      open := open - {k};
      SettleUsage(a, c);
      return true;
    }

    /** Swap a's reservation for the requests sent. */
    method SettleUsage(a: Admission, c: Counts)
      modifies this`routes, this`order
      ensures Model() == Put(old(Model()), a.route, WithSettled(UsageOf(old(Model()), a.route), a, c))
    {
      var u := UsageOf(Model(), a.route);
      u := u.(reserved := u.reserved - a.reserve, charged := ChargedMore(u.charged, a.tokens, c.Total() - a.reserve),
              probe := u.probe + c.probe, development := u.development + c.development);
      if a.purpose.Replacement? {
        u := u.(replacement := u.replacement + c.warmup + c.measured);
      } else {
        u := u.(warmup := u.warmup + c.warmup, measured := u.measured + c.measured);
      }
      Store(a.route, u);
    }

    /** The charge across routes. */
    method TotalCharged() returns (n: int)
      ensures n == Total(Model())
    {
      n := 0;
      for k := 0 to |order|
        invariant n == TotalUpTo(Model(), k)
      {
        n := n + UsageOf(Model(), order[k]).Charged();
      }
    }

    /** Route r's charge with extra more requests at tok; None is a charge with no price. */
    method RouteLiability(r: string, tok: Tokens, extra: int) returns (sum: Option<real>)
      ensures sum == UsageLiability(UsageOf(Model(), r), tok, extra)
    {
      var charged := UsageOf(Model(), r).charged;
      if extra > 0 {
        charged := charged[tok := (if tok in charged then charged[tok] else 0) + extra];
      }
      sum := SumCharges(charged, UsageOf(Model(), r).prices);
    }

    /** Every route's charge, with extra more requests to route at tok, and hosting. */
    method Liability(route: string, tok: Tokens, extra: int) returns (sum: Option<real>)
      ensures sum == LiabilityOf(Model(), route, tok, extra)
    {
      var total: real := hosting;
      ghost var st := Model();
      for k := 0 to |order|
        invariant LiabilityUpTo(st, k, route, tok, extra) == Some(total)
      {
        var c := RouteLiability(order[k], tok, if order[k] == route then extra else 0);
        LiabilityStep(st, k, route, tok, extra, total, c);
        if c.None? {
          NoneStays(st, k + 1, |order|, route, tok, extra);
          return None;
        }
        total := total + c.value;
      }
      return Some(total);
    }

    /** The charge with extra more requests at tok to route, or why there is none. */
    method PositionAt(route: string, tok: Tokens, extra: int) returns (p: Result<Position, Reason>)
      ensures p == PositionOf(Model(), route, tok, extra)
    {
      if routeCaps != map[] && route !in routeCaps {
        return Err(NoRouteCap);
      }
      if PriceAt(Model(), route, tok).None? {
        return Err(NoPrice);
      }
      var liab := Liability(route, tok, extra);
      if liab.None? {
        return Err(Unpriced);
      }
      var n := extra + UsageOf(Model(), route).Charged();
      var total := TotalCharged();
      if routeCaps == map[] {
        return Ok(Position(n, total + extra, liab.value, None));
      }
      var rl := RouteLiability(route, tok, extra);
      if rl.None? {
        return Err(Unpriced);
      }
      return Ok(Position(n, total + extra, liab.value, Some(rl.value)));
    }
  }

  /** Every counted request at its price, the token bounds met in any order. */
  method SumCharges(charged: map<Tokens, int>, prices: map<Tokens, Usd>) returns (sum: Option<real>)
    ensures sum == if Priced(charged, prices) then Some(Worth(charged, prices)) else None
  {
    var total, left := 0.0, charged.Keys;
    ghost var f := TermOf(charged, prices);
    while left != {}
      invariant left <= charged.Keys
      invariant forall t :: t in charged && t !in left && charged[t] != 0 ==> t in prices
      invariant total + SumR(left, f) == Worth(charged, prices)
      decreases |left|
    {
      var t :| t in left;
      SumRSplit(left, f, t);
      left := left - {t};
      if charged[t] != 0 {
        if t !in prices {
          return None;
        }
        total := total + Times(charged[t], prices[t]);
      }
    }
    return Some(total);
  }

  lemma {:induction false} NoneStays(st: State, j: nat, k: nat, route: string, tok: Tokens, extra: int)
    requires j <= k <= |st.order| && LiabilityUpTo(st, j, route, tok, extra).None?
    ensures LiabilityUpTo(st, k, route, tok, extra).None?
    decreases k
  {
    if j < k {
      NoneStays(st, j, k - 1, route, tok, extra);
    }
  }

  lemma LiabilityStep(st: State, k: nat, route: string, tok: Tokens, extra: int, total: real, c: Option<real>)
    requires k < |st.order| && LiabilityUpTo(st, k, route, tok, extra) == Some(total)
    requires c == RouteLiabilityOf(st, st.order[k], route, tok, extra)
    ensures LiabilityUpTo(st, k + 1, route, tok, extra) == if c.None? then None else Some(total + c.value)
  {
  }

  /** Read and check a file, line by line; null refuses it. */
  method Read(lines: seq<Entry>) returns (book: Book?)
    ensures book != null <==> Parse(lines).Some?
    ensures book != null ==> fresh(book) && book.Model() == Parse(lines).value
  {
    if lines == [] {
      return null;
    }
    var b := new Book();
    for k := 0 to |lines|
      invariant Replay(lines[..k]) == Some(b.Model()) && fresh(b)
    {
      var e := lines[k];
      assert lines[..k + 1] == lines[..k] + [e];
      ReplayAppend(lines[..k], e);
      ghost var st := b.Model();
      if Parse(lines).Some? {
        ReplayPrefix(lines, k + 1);
      }
      if e.seqNo != b.lines + 1 || e.prev != Sha(lines[..k]) {
        return null;
      }
      var ok := b.Apply(e);
      if !ok {
        return null;
      }
      b.lines := e.seqNo;
    }
    assert lines[..|lines|] == lines;
    return b;
  }

  /** The ledger file. Every operation reads and checks all of it under the lock,
      then appends at most one line. */
  class LedgerFile {
    var file: seq<Entry>

    constructor (caps: Caps, time: int)
      ensures file == Created(caps, time)
    {
      file := [Stamp([], time, Open(1, Some(caps)))];
    }

    /** Append body after the file's whole content. */
    method Append(time: int, body: Body) returns (e: Entry)
      modifies this
      ensures e == Stamp(old(file), time, body) && file == old(file) + [e]
    {
      e := Entry(|file| + 1, Sha(file), time, body);
      file := file + [e];
    }

    method RecordPrice(route: string, p: ListPrice, time: int) returns (r: Outcome)
      modifies this
      ensures (file, r) == Perform(old(file), Op.RecordPrice(route, p), time)
    {
      var st := Read(file);
      if st == null {
        return Unreadable;
      }
      var q := p;
      if q.tokens.input == 0 && q.tokens.output == 0 {
        q := q.(tokens := Tokens(st.caps.maxInput, st.caps.maxOutput));
      }
      var price := CheckPrice(route, q);
      if price.None? {
        return Failed;
      }
      var e := Append(time, Price(route, q, price.value));
      return Written(e);
    }

    method RecordHosting(usd: Decimal, noteEmpty: bool, time: int) returns (r: Outcome)
      modifies this
      ensures (file, r) == Perform(old(file), Op.RecordHosting(usd, noteEmpty), time)
    {
      var st := Read(file);
      if st == null {
        return Unreadable;
      }
      if !PositiveDecimal(usd) || noteEmpty {
        return Failed;
      }
      var e := Append(time, Hosting(usd));
      return Written(e);
    }

    /** Admit, or AdmitAt where rev is the price revision its caller checked. */
    method Admit(route: string, purpose: Purpose, n: int, tok: Tokens, rev: Option<int>, time: int) returns (r: Outcome)
      modifies this
      ensures (file, r) == Perform(old(file), Reserve(route, purpose, n, tok, rev), time)
    {
      var st := Read(file);
      if st == null {
        return Unreadable;
      }
      ghost var model := st.Model();
      if route == "" {
        return Failed;
      }
      if rev.Some? && PriceRevision(st.Model(), route) != rev.value {
        return PriceChanged(rev.value, PriceRevision(st.Model(), route));
      }
      if tok.input < 1 || tok.output < 1 || !ReserveAllowed(st.caps, purpose, n) {
        return Failed;
      }
      var before := st.PositionAt(route, tok, 0);
      var after := before;
      if before.Ok? {
        after := st.PositionAt(route, tok, n);
      }
      assert st.Model() == model;
      if after.Err? {
        var _ := Append(time, Refused(route, tok, purpose, n, after.error));
        return RefusedFor(after.error);
      }
      var reason := CapPassed(st.Model(), route, after.value);
      if reason.Some? {
        var _ := Append(time, Refused(route, tok, purpose, n, reason.value));
        return RefusedFor(reason.value);
      }
      var price := PriceAt(st.Model(), route, tok).value;
      var e := Append(time, Body.Admit(route, tok, price, purpose, n, before.value, after.value));
      return Written(e);
    }

    /** Settle a with the requests sent. */
    method Settle(a: Admission, sent: Counts, time: int) returns (r: Outcome)
      modifies this
      ensures (file, r) == Perform(old(file), SettleOp(a, sent), time)
    {
      var st := Read(file);
      if st == null {
        return Unreadable;
      }
      if a.seqNo !in st.open || st.open[a.seqNo] != a || !CountsAllowed(a.purpose, sent) {
        return Failed;
      }
      var e := Append(time, Body.Settle(a.route, a.seqNo, Some(sent), sent.Total() > a.reserve));
      return if sent.Total() > a.reserve then Overran(e) else Written(e);
    }
  }
}
