// The edition over whole runs: what the processes may do to a ledger within a
// release's terms, that no cell is then refused at the route's cap, and exactly when.
module EditionRuns {
  import opened Prelude
  import opened Ledger
  import opened LedgerState
  import opened LedgerRuns
  import opened LedgerCaps
  import opened LedgerDecision
  import opened LedgerMeaning
  import opened Edition
  import C = Ceiling
  import F = Frozen
  import R = RouteLoop

  // ----- what one operation may do within the terms

  /** A price line of the route at one of its bounds raises no price. */
  ghost predicate NoDearer(st: State, t: Terms, list: ListPrice) {
    var q := PriceDefaults(st, list);
    CheckPrice(t.route, q).Some? ==>
      && (q.tokens == t.own ==> CheckPrice(t.route, q).value <= t.c)
      && (q.tokens == t.probe ==> CheckPrice(t.route, q).value <= t.cProbe)
  }

  /** The release's operations, in any order among all others: its cells one request and
      a schedule at most while any is left, its other requests at its two bounds within
      their number, no overrun of the route and no dearer price for it. */
  ghost predicate Allowed(lines: seq<Entry>, op: Op, t: Terms)
    requires Parse(lines).Some?
  {
    match op
    case RecordPrice(route, list) => route == t.route ==> NoDearer(Parse(lines).value, t, list)
    case RecordHosting(_, _) => true
    case Reserve(route, purpose, n, tok, _) =>
      route == t.route ==>
        if purpose.Cell? then tok == t.own && n <= 1 + t.schedule && CellCount(lines, |lines|, route) < t.cells
        else (tok == t.own || tok == t.probe) && OtherReserve(lines, |lines|, route) + n <= t.others
    case SettleOp(a, sent) => a.route == t.route ==> sent.Total() <= a.reserve
  }

  /** What an operation's line says of it. */
  ghost predicate Writes(st: State, op: Op, body: Body) {
    match body
    case Open(_, _) => false
    case Price(route, list, r) =>
      op.RecordPrice? && op.route == route && list == PriceDefaults(st, op.list) && CheckPrice(route, list) == Some(r)
    case Hosting(_) => op.RecordHosting?
    case Admit(route, tok, _, purpose, reserve, _, _) =>
      op.Reserve? && op.route == route && op.tok == tok && op.purpose == purpose && op.n == reserve
    case Refused(_, _, _, _, _) => op.Reserve?
    case Settle(route, _, _, overrun) => op.SettleOp? && op.a.route == route && overrun == (op.sent.Total() > op.a.reserve)
    case UnknownKind => false
  }

  lemma AdmitDraft(st: State, route: string, purpose: Purpose, n: int, tok: Tokens, rev: Option<int>)
    ensures var d := DraftAdmit(st, route, purpose, n, tok, rev);
      (d.Line? || d.Refusal?) ==> Writes(st, Reserve(route, purpose, n, tok, rev), d.body)
  {
  }

  lemma DraftWrites(st: State, op: Op)
    ensures DraftOf(st, op).Line? || DraftOf(st, op).Refusal? ==> Writes(st, op, DraftOf(st, op).body)
  {
    if op.Reserve? {
      AdmitDraft(st, op.route, op.purpose, op.n, op.tok, op.rev);
    }
  }

  /** An operation writes nothing, or one line that says what it did. */
  lemma OpLine(lines: seq<Entry>, op: Op, time: int)
    requires Parse(lines).Some?
    ensures var file := Perform(lines, op, time).0;
      && Parse(file).Some?
      && (file == lines || (|file| == |lines| + 1 && file == lines + [file[|lines|]]
                            && Writes(Parse(lines).value, op, file[|lines|].body)))
  {
    PerformParses(lines, op, time);
    DraftWrites(Parse(lines).value, op);
  }

  // ----- every operation keeps the terms

  lemma {:induction false} CountsSame(lines: seq<Entry>, e: Entry, m: nat, route: string)
    requires m <= |lines|
    ensures CellCount(lines + [e], m, route) == CellCount(lines, m, route)
    ensures OtherReserve(lines + [e], m, route) == OtherReserve(lines, m, route)
  {
    if m > 0 {
      CountsSame(lines, e, m - 1, route);
    }
  }

  lemma CountsMore(lines: seq<Entry>, e: Entry, route: string)
    ensures CellCount(lines + [e], |lines| + 1, route)
         == CellCount(lines, |lines|, route) + (if CellAdmit(e, route) then 1 else 0)
    ensures OtherReserve(lines + [e], |lines| + 1, route)
         == OtherReserve(lines, |lines|, route) + (if OtherAdmit(e, route) then e.body.reserve else 0)
  {
    CountsSame(lines, e, |lines|, route);
    assert (lines + [e])[|lines|] == e;
  }

  lemma PriceKept(lines: seq<Entry>, e: Entry, op: Op, t: Terms, tok: Tokens, p: Usd)
    requires Parse(lines).Some? && Parse(lines + [e]).Some? && Writes(Parse(lines).value, op, e.body) && Allowed(lines, op, t)
    requires (tok == t.own && p == t.c) || (tok == t.probe && p == t.cProbe)
    requires PriceAt(Parse(lines).value, t.route, tok) == Some(p)
    ensures PriceAt(Parse(lines + [e]).value, t.route, tok) == Some(p)
  {
    AfterLine(lines, e);
    PriceStep(Parse(lines).value, e, t.route, tok);
    UsageLines(Apply(Parse(lines).value, e).value, |lines| + 1, t.route);
  }

  lemma LogKept(lines: seq<Entry>, e: Entry, op: Op, t: Terms)
    requires Parse(lines).Some? && Writes(Parse(lines).value, op, e.body) && Allowed(lines, op, t)
    requires NoOverrunOn(lines, t.route) && EditionLog(lines, t.route, t.own, t.probe, t.schedule)
    ensures NoOverrunOn(lines + [e], t.route) && EditionLog(lines + [e], t.route, t.own, t.probe, t.schedule)
  {
    forall k | 0 <= k < |lines| + 1
      ensures (lines + [e])[k] == if k < |lines| then lines[k] else e
    {
    }
  }

  lemma LineKeeps(lines: seq<Entry>, e: Entry, op: Op, t: Terms)
    requires Within(lines, t) && Parse(lines + [e]).Some?
    requires Writes(Parse(lines).value, op, e.body) && Allowed(lines, op, t)
    ensures Within(lines + [e], t)
  {
    LogKept(lines, e, op, t);
    CountsMore(lines, e, t.route);
    PriceKept(lines, e, op, t, t.own, t.c);
    PriceKept(lines, e, op, t, t.probe, t.cProbe);
  }

  lemma StepKeeps(lines: seq<Entry>, op: Op, time: int, t: Terms)
    requires Within(lines, t) && Allowed(lines, op, t)
    ensures Within(Perform(lines, op, time).0, t)
    ensures Parse(Perform(lines, op, time).0).value.routeCaps == Parse(lines).value.routeCaps
  {
    var file := Perform(lines, op, time).0;
    OpLine(lines, op, time);
    if file != lines {
      AfterLine(lines, file[|lines|]);
      LineKeeps(lines, file[|lines|], op, t);
    }
  }

  // ----- over a run

  /** Every operation of a run is allowed where it comes. */
  ghost predicate Disciplined(lines: seq<Entry>, ops: seq<(Op, int)>, t: Terms)
    requires Parse(lines).Some?
  {
    forall k :: 0 <= k < |ops| ==> AllowedAt(lines, ops, k, t)
  }

  ghost predicate AllowedAt(lines: seq<Entry>, ops: seq<(Op, int)>, k: nat, t: Terms)
    requires Parse(lines).Some? && k < |ops|
  {
    Parse(Run(lines, ops[..k])).Some? && Allowed(Run(lines, ops[..k]), ops[k].0, t)
  }

  lemma {:induction false} RunKeeps(lines: seq<Entry>, ops: seq<(Op, int)>, t: Terms, k: nat)
    requires Within(lines, t) && Disciplined(lines, ops, t) && k <= |ops|
    ensures Within(Run(lines, ops[..k]), t)
    ensures Parse(Run(lines, ops[..k])).value.routeCaps == Parse(lines).value.routeCaps
  {
    if k > 0 {
      RunKeeps(lines, ops, t, k - 1);
      assert AllowedAt(lines, ops, k - 1, t);
      assert ops[..k][..k - 1] == ops[..k - 1];
      StepKeeps(Run(lines, ops[..k - 1]), ops[k - 1].0, ops[k - 1].1, t);
    }
  }

  ghost predicate IsCell(op: Op, t: Terms) { op.Reserve? && op.route == t.route && op.purpose.Cell? }

  /** At its operation k a disciplined run meets a cell's refusal at the route's cap. */
  ghost predicate RefusesCell(lines: seq<Entry>, ops: seq<(Op, int)>, k: nat, t: Terms)
    requires Parse(lines).Some?
  {
    && k < |ops| && Disciplined(lines, ops, t) && IsCell(ops[k].0, t)
    && Perform(Run(lines, ops[..k]), ops[k].0, ops[k].1).1 == RefusedFor(RouteLiability)
  }

  /** Over every run within the terms, whatever else the processes do, no cell is refused
      at a route cap that holds the worst edition. */
  lemma NoCellRefused(lines: seq<Entry>, ops: seq<(Op, int)>, k: nat, t: Terms)
    requires Within(lines, t) && t.route in Parse(lines).value.routeCaps
    requires t.Worst() <= Parse(lines).value.routeCaps[t.route]
    ensures !RefusesCell(lines, ops, k, t)
  {
    if k < |ops| && Disciplined(lines, ops, t) && IsCell(ops[k].0, t) {
      RunKeeps(lines, ops, t, k);
      assert AllowedAt(lines, ops, k, t);
      var op := ops[k].0;
      CellNeverRefused(Run(lines, ops[..k]), t, op.n, op.rev, ops[k].1);
    }
  }

  // ----- and the converse: a cap under the worst edition refuses some run

  /** What so many cells and other requests come to, each all it may. */
  ghost function Reserved(cells: int, others: int, t: Terms): real {
    Times(cells * (1 + t.schedule), t.c) + Times(others, t.Dearer())
  }

  lemma OneMoreCell(cells: int, more: int, others: int, t: Terms)
    requires more == cells + 1
    ensures Reserved(more, others, t) == Reserved(cells, others, t) + Times(1 + t.schedule, t.c)
  {
    OneCellMore(cells, 1 + t.schedule);
    TimesAdd(cells * (1 + t.schedule), 1 + t.schedule, t.c);
  }

  lemma OneMoreOther(cells: int, others: int, more: int, t: Terms)
    requires more == others + 1
    ensures Reserved(cells, more, t) == Reserved(cells, others, t) + t.Dearer()
  {
    TimesStep(more, t.Dearer());
  }

  /** Every cell so far reserved all it may, every other request was at the dearer bound,
      and nothing was sent short of that. */
  ghost predicate Full(lines: seq<Entry>, t: Terms)
    requires Parse(lines).Some?
  {
    RouteWorth(Parse(lines).value, t.route)
    == Reserved(CellCount(lines, |lines|, t.route), OtherReserve(lines, |lines|, t.route), t)
  }

  /** Only the route's cap can refuse the route: no request cap, and a global cap with room for the route's. */
  ghost predicate Roomy(lines: seq<Entry>, t: Terms)
    requires Parse(lines).Some?
  {
    var st := Parse(lines).value;
    && t.route in st.routeCaps && st.caps.routeRequests == 0 && st.caps.totalRequests == 0
    && Liabilities(st) - RouteWorth(st, t.route) + st.routeCaps[t.route] <= st.liabilityCap
  }

  ghost predicate Askable(t: Terms) {
    t.route != "" && t.own.input >= 1 && t.own.output >= 1 && t.probe.input >= 1 && t.probe.output >= 1
  }

  ghost predicate Ready(lines: seq<Entry>, t: Terms) {
    && Askable(t) && Within(lines, t) && Full(lines, t) && Roomy(lines, t)
    && CellCount(lines, |lines|, t.route) < t.cells
  }

  function CellOp(t: Terms): Op { Reserve(t.route, Cell, 1 + t.schedule, t.own, None) }

  /** One request at the dearer bounds. */
  function ProbeOp(t: Terms): Op { Reserve(t.route, Probe, 1, if t.c < t.cProbe then t.probe else t.own, None) }

  /** Of a roomy ledger only the route's cap decides. */
  lemma OnlyRouteCap(st: State, t: Terms, tok: Tokens, n: int, p: Usd)
    requires t.route in st.routeCaps && st.caps.routeRequests == 0 && st.caps.totalRequests == 0
    requires Liabilities(st) - RouteWorth(st, t.route) + st.routeCaps[t.route] <= st.liabilityCap
    requires PriceAt(st, t.route, tok) == Some(p)
    ensures Why(st, t.route, tok, n)
         == if RouteWorth(st, t.route) + Times(n, p) > st.routeCaps[t.route] then Some(RouteLiability) else None
  {
  }

  /** What a written admission of the route leaves: its requests at its price more, and the same caps. */
  lemma Admitted(lines: seq<Entry>, t: Terms, purpose: Purpose, tok: Tokens, n: int, p: Usd)
    requires Parse(lines).Some? && PriceAt(Parse(lines).value, t.route, tok) == Some(p)
    requires WellAsked(Parse(lines).value, t.route, purpose, n, tok, None)
    requires Why(Parse(lines).value, t.route, tok, n).None?
    ensures var file := Perform(lines, Reserve(t.route, purpose, n, tok, None), 0).0;
      var st := Parse(lines).value;
      && |file| == |lines| + 1 && file == lines + [file[|lines|]] && Parse(file).Some?
      && file[|lines|].body.Admit? && file[|lines|].body.route == t.route && file[|lines|].body.purpose == purpose
      && file[|lines|].body.reserve == n
      && RouteWorth(Parse(file).value, t.route) == RouteWorth(st, t.route) + Times(n, p)
      && Parse(file).value.routeCaps == st.routeCaps && (Roomy(lines, t) ==> Roomy(file, t))
  {
    AdmitExactly(lines, t.route, purpose, n, tok, None, 0);
    var op := Reserve(t.route, purpose, n, tok, None);
    var e := Perform(lines, op, 0).1.line;
    OpLine(lines, op, 0);
    AdmitPrice(Parse(lines).value, t.route, purpose, n, tok);
    AfterLine(lines, e);
    LedgerLineEffect(lines, e, t.route);
  }

  lemma AdmitPrice(st: State, route: string, purpose: Purpose, n: int, tok: Tokens)
    requires DraftAdmit(st, route, purpose, n, tok, None).Line?
    ensures var b := DraftAdmit(st, route, purpose, n, tok, None).body;
      b.Admit? && Some(b.perRequest) == PriceAt(st, route, tok) && b.reserve == n && b.route == route
  {
  }

  /** An admission that the terms allow and the route's cap lets in is written. */
  lemma LetIn(lines: seq<Entry>, t: Terms, purpose: Purpose, tok: Tokens, n: int, p: Usd)
    requires Within(lines, t) && Roomy(lines, t) && Allowed(lines, Reserve(t.route, purpose, n, tok, None), t)
    requires WellAsked(Parse(lines).value, t.route, purpose, n, tok, None)
    requires PriceAt(Parse(lines).value, t.route, tok) == Some(p)
    requires RouteWorth(Parse(lines).value, t.route) + Times(n, p) <= Parse(lines).value.routeCaps[t.route]
    ensures var file := Perform(lines, Reserve(t.route, purpose, n, tok, None), 0).0;
      && Within(file, t) && Roomy(file, t) && Parse(file).value.routeCaps == Parse(lines).value.routeCaps
      && RouteWorth(Parse(file).value, t.route) == RouteWorth(Parse(lines).value, t.route) + Times(n, p)
      && CellCount(file, |file|, t.route) == CellCount(lines, |lines|, t.route) + (if purpose.Cell? then 1 else 0)
      && OtherReserve(file, |file|, t.route) == OtherReserve(lines, |lines|, t.route) + (if purpose.Cell? then 0 else n)
  {
    var op := Reserve(t.route, purpose, n, tok, None);
    var file := Perform(lines, op, 0).0;
    OnlyRouteCap(Parse(lines).value, t, tok, n, p);
    Admitted(lines, t, purpose, tok, n, p);
    StepKeeps(lines, op, 0, t);
    CountsMore(lines, file[|lines|], t.route);
  }

  lemma NowReady(lines: seq<Entry>, t: Terms, cells: int, others: int)
    requires Askable(t) && Within(lines, t) && Roomy(lines, t) && cells < t.cells
    requires CellCount(lines, |lines|, t.route) == cells && OtherReserve(lines, |lines|, t.route) == others
    requires RouteWorth(Parse(lines).value, t.route) == Reserved(cells, others, t)
    ensures Ready(lines, t)
  {
  }

  lemma More(lines: seq<Entry>, t: Terms, purpose: Purpose, tok: Tokens, n: int, p: Usd, cells: int, others: int)
    requires Ready(lines, t) && Allowed(lines, Reserve(t.route, purpose, n, tok, None), t)
    requires WellAsked(Parse(lines).value, t.route, purpose, n, tok, None)
    requires PriceAt(Parse(lines).value, t.route, tok) == Some(p)
    requires RouteWorth(Parse(lines).value, t.route) + Times(n, p) <= Parse(lines).value.routeCaps[t.route]
    requires cells == CellCount(lines, |lines|, t.route) + (if purpose.Cell? then 1 else 0) && cells < t.cells
    requires others == OtherReserve(lines, |lines|, t.route) + (if purpose.Cell? then 0 else n)
    requires Reserved(cells, others, t)
          == Reserved(CellCount(lines, |lines|, t.route), OtherReserve(lines, |lines|, t.route), t) + Times(n, p)
    ensures var file := Perform(lines, Reserve(t.route, purpose, n, tok, None), 0).0;
      && Ready(file, t) && Parse(file).value.routeCaps == Parse(lines).value.routeCaps
      && CellCount(file, |file|, t.route) == cells && OtherReserve(file, |file|, t.route) == others
  {
    LetIn(lines, t, purpose, tok, n, p);
    NowReady(Perform(lines, Reserve(t.route, purpose, n, tok, None), 0).0, t, cells, others);
  }

  /** The release's next cell, and its next other request, are asked well and allowed. */
  lemma CellAsked(lines: seq<Entry>, t: Terms)
    requires Ready(lines, t)
    ensures Allowed(lines, CellOp(t), t) && WellAsked(Parse(lines).value, t.route, Cell, 1 + t.schedule, t.own, None)
    ensures PriceAt(Parse(lines).value, t.route, t.own) == Some(t.c)
  {
  }

  lemma ProbeAsked(lines: seq<Entry>, t: Terms)
    requires Ready(lines, t) && OtherReserve(lines, |lines|, t.route) < t.others
    ensures Allowed(lines, ProbeOp(t), t) && WellAsked(Parse(lines).value, t.route, Probe, 1, ProbeOp(t).tok, None)
    ensures PriceAt(Parse(lines).value, t.route, ProbeOp(t).tok) == Some(t.Dearer())
  {
  }

  /** A cell more, of a ready ledger whose cap lets it in and whose cells do not end with it. */
  lemma CellMore(lines: seq<Entry>, t: Terms)
    requires Ready(lines, t) && CellCount(lines, |lines|, t.route) + 1 < t.cells
    requires RouteWorth(Parse(lines).value, t.route) + Times(1 + t.schedule, t.c) <= Parse(lines).value.routeCaps[t.route]
    ensures Allowed(lines, CellOp(t), t)
    ensures var file := Perform(lines, CellOp(t), 0).0;
      && Ready(file, t) && Parse(file).value.routeCaps == Parse(lines).value.routeCaps
      && CellCount(file, |file|, t.route) == CellCount(lines, |lines|, t.route) + 1
      && OtherReserve(file, |file|, t.route) == OtherReserve(lines, |lines|, t.route)
  {
    var count, others := CellCount(lines, |lines|, t.route), OtherReserve(lines, |lines|, t.route);
    CellAsked(lines, t);
    OneMoreCell(count, count + 1, others, t);
    More(lines, t, Cell, t.own, 1 + t.schedule, t.c, count + 1, others);
  }

  /** Another request more, of a ready ledger whose cap lets it in. */
  lemma ProbeMore(lines: seq<Entry>, t: Terms)
    requires Ready(lines, t) && OtherReserve(lines, |lines|, t.route) < t.others
    requires RouteWorth(Parse(lines).value, t.route) + t.Dearer() <= Parse(lines).value.routeCaps[t.route]
    ensures Allowed(lines, ProbeOp(t), t)
    ensures var file := Perform(lines, ProbeOp(t), 0).0;
      && Ready(file, t) && Parse(file).value.routeCaps == Parse(lines).value.routeCaps
      && CellCount(file, |file|, t.route) == CellCount(lines, |lines|, t.route)
      && OtherReserve(file, |file|, t.route) == OtherReserve(lines, |lines|, t.route) + 1
  {
    var count, others := CellCount(lines, |lines|, t.route), OtherReserve(lines, |lines|, t.route);
    ProbeAsked(lines, t);
    TimesStep(1, t.Dearer());
    OneMoreOther(count, others, others + 1, t);
    More(lines, t, Probe, ProbeOp(t).tok, 1, t.Dearer(), count, others + 1);
  }

  lemma CellOutcome(lines: seq<Entry>, t: Terms)
    requires Ready(lines, t)
    requires RouteWorth(Parse(lines).value, t.route) + Times(1 + t.schedule, t.c) > Parse(lines).value.routeCaps[t.route]
    ensures Perform(lines, CellOp(t), 0).1 == RefusedFor(RouteLiability) && Allowed(lines, CellOp(t), t)
  {
    CellAsked(lines, t);
    OnlyRouteCap(Parse(lines).value, t, t.own, 1 + t.schedule, t.c);
    AdmitExactly(lines, t.route, Cell, 1 + t.schedule, t.own, None, 0);
  }

  /** The cell that passes the cap. */
  lemma CellRefused(lines: seq<Entry>, t: Terms)
    requires Ready(lines, t)
    requires RouteWorth(Parse(lines).value, t.route) + Times(1 + t.schedule, t.c) > Parse(lines).value.routeCaps[t.route]
    ensures RefusesCell(lines, [(CellOp(t), 0)], 0, t)
  {
    var ops := [(CellOp(t), 0)];
    CellOutcome(lines, t);
    assert Run(lines, ops[..0]) == lines;
    assert AllowedAt(lines, ops, 0, t);
  }

  lemma RunAfter(lines: seq<Entry>, op: (Op, int), ops: seq<(Op, int)>, j: nat)
    requires j <= |ops|
    ensures Run(lines, ([op] + ops)[..j + 1]) == Run(Perform(lines, op.0, op.1).0, ops[..j])
  {
    assert [op][..0] == [];
    assert Run(lines, [op]) == Perform(lines, op.0, op.1).0;
    assert ([op] + ops)[..j + 1] == [op] + ops[..j];
    RunSplit(lines, [op], ops[..j]);
  }

  lemma AllowedAfter(lines: seq<Entry>, op: (Op, int), ops: seq<(Op, int)>, j: nat, t: Terms)
    requires Parse(lines).Some? && Allowed(lines, op.0, t) && Parse(Perform(lines, op.0, op.1).0).Some?
    requires j <= |ops| && (j > 0 ==> AllowedAt(Perform(lines, op.0, op.1).0, ops, j - 1, t))
    ensures AllowedAt(lines, [op] + ops, j, t)
  {
    if j == 0 {
      assert ([op] + ops)[..0] == [];
    } else {
      RunAfter(lines, op, ops, j - 1);
    }
  }

  /** A refusal after one more operation is a refusal of the longer run. */
  lemma RefusedAfter(lines: seq<Entry>, op: (Op, int), ops: seq<(Op, int)>, k: nat, t: Terms)
    requires Parse(lines).Some? && Allowed(lines, op.0, t) && Parse(Perform(lines, op.0, op.1).0).Some?
    requires RefusesCell(Perform(lines, op.0, op.1).0, ops, k, t)
    ensures RefusesCell(lines, [op] + ops, k + 1, t)
  {
    forall j: nat | j < |ops| + 1
      ensures AllowedAt(lines, [op] + ops, j, t)
    {
      AllowedAfter(lines, op, ops, j, t);
    }
    RunAfter(lines, op, ops, k);
  }

  /** Where a cell costs no less than one other request, a cap under the worst edition is
      passed by a run within the terms: cells, then other requests, then a cell. */
  lemma {:induction false} WorstRefuses(lines: seq<Entry>, t: Terms) returns (ops: seq<(Op, int)>, k: nat)
    requires Ready(lines, t) && t.Worst() > Parse(lines).value.routeCaps[t.route]
    requires t.Dearer() <= Times(1 + t.schedule, t.c)
    ensures RefusesCell(lines, ops, k, t)
    decreases t.cells - CellCount(lines, |lines|, t.route), t.others - OtherReserve(lines, |lines|, t.route)
  {
    var count, size := CellCount(lines, |lines|, t.route), 1 + t.schedule;
    if RouteWorth(Parse(lines).value, t.route) + Times(size, t.c) > Parse(lines).value.routeCaps[t.route] {
      CellRefused(lines, t);
      return [(CellOp(t), 0)], 0;
    }
    var op := CellOp(t);
    if count + 1 < t.cells {
      CellMore(lines, t);
    } else {
      op := ProbeOp(t);
      OneMoreCell(count, t.cells, OtherReserve(lines, |lines|, t.route), t);
      ProbeMore(lines, t);
    }
    ops, k := WorstRefuses(Perform(lines, op, 0).0, t);
    RefusedAfter(lines, (op, 0), ops, k, t);
    ops, k := [(op, 0)] + ops, k + 1;
  }

  /** Exactly when the release is safe: of a ledger where only the route's cap can refuse
      and a cell costs no less than one other request, no run within the terms ever has a
      cell refused if and only if the cap holds the worst edition. */
  lemma RefusesExactly(lines: seq<Entry>, t: Terms)
    requires Ready(lines, t) && t.Dearer() <= Times(1 + t.schedule, t.c)
    ensures (exists ops, k: nat :: RefusesCell(lines, ops, k, t)) <==> t.Worst() > Parse(lines).value.routeCaps[t.route]
  {
    if t.Worst() > Parse(lines).value.routeCaps[t.route] {
      var ops, k := WorstRefuses(lines, t);
    } else {
      forall ops, k: nat
        ensures !RefusesCell(lines, ops, k, t)
      {
        NoCellRefused(lines, ops, k, t);
      }
    }
  }

  // ----- a release, from its first line

  /** The price counted after a line of price r. */
  function Raised(was: Option<Usd>, r: Usd): Option<Usd> {
    if was.Some? && r <= was.value then was else Some(r)
  }

  lemma PriceEntry(st: State, e: Entry, n: nat, r: Usd)
    requires e.body.Price? && Apply(st, e).Some? && CheckPrice(e.body.route, e.body.list) == Some(r)
    ensures var after, route, tok := Apply(st, e).value.(lines := n), e.body.route, e.body.list.tokens;
      && (forall t :: t != tok ==> PriceAt(after, route, t) == PriceAt(st, route, t))
      && PriceAt(after, route, tok) == Raised(PriceAt(st, route, tok), r)
  {
  }

  /** What the route's caps have to do with besides the route. */
  ghost function Besides(st: State, route: string): real { Liabilities(st) - RouteWorth(st, route) }

  lemma PriceRecorded(lines: seq<Entry>, route: string, q: ListPrice, r: Usd, time: int)
    requires Parse(lines).Some? && q.tokens != Tokens(0, 0) && CheckPrice(route, q) == Some(r)
    ensures var file := Perform(lines, Op.RecordPrice(route, q), time).0;
      && file == lines + [Stamp(lines, time, Price(route, q, r))] && Parse(file).Some?
      && var st, now := Parse(lines).value, Parse(file).value;
      && now.routeCaps == st.routeCaps && now.caps == st.caps && now.liabilityCap == st.liabilityCap
      && Besides(now, route) == Besides(st, route)
      && (forall t :: t != q.tokens ==> PriceAt(now, route, t) == PriceAt(st, route, t))
      && PriceAt(now, route, q.tokens) == Raised(PriceAt(st, route, q.tokens), r)
  {
    var e := Stamp(lines, time, Price(route, q, r));
    PerformParses(lines, Op.RecordPrice(route, q), time);
    AfterLine(lines, e);
    LedgerLineEffect(lines, e, route);
    PriceEntry(Parse(lines).value, e, |lines| + 1, r);
  }

  /** The ledger with a list price recorded for a route at its two bounds. */
  ghost function WithList(lines: seq<Entry>, route: string, p: ListPrice, own: Tokens, probe: Tokens, time: int): seq<Entry> {
    var first := Perform(lines, Op.RecordPrice(route, p.(tokens := own)), time).0;
    if probe == own then first else Perform(first, Op.RecordPrice(route, p.(tokens := probe)), time).0
  }

  ghost predicate PriceLinesFrom(lines: seq<Entry>, from: nat, route: string, p: ListPrice) {
    && from < |lines|
    && forall k :: from <= k < |lines| ==>
         lines[k].body.Price? && lines[k].body.route == route && lines[k].body.list == p.(tokens := lines[k].body.list.tokens)
  }

  lemma ListRecorded(lines: seq<Entry>, route: string, p: ListPrice, own: Tokens, probe: Tokens, c: Usd, cProbe: Usd, time: int)
    requires Parse(lines).Some? && own != Tokens(0, 0) && probe != Tokens(0, 0)
    requires CheckPrice(route, p.(tokens := own)) == Some(c) && CheckPrice(route, p.(tokens := probe)) == Some(cProbe)
    ensures var file := WithList(lines, route, p, own, probe, time);
      && Parse(file).Some? && lines <= file && PriceLinesFrom(file, |lines|, route, p)
      && var st, now := Parse(lines).value, Parse(file).value;
      && now.routeCaps == st.routeCaps && now.caps == st.caps && now.liabilityCap == st.liabilityCap
      && Besides(now, route) == Besides(st, route)
      && PriceAt(now, route, own) == Raised(PriceAt(st, route, own), c)
      && PriceAt(now, route, probe) == Raised(PriceAt(st, route, probe), cProbe)
  {
    PriceRecorded(lines, route, p.(tokens := own), c, time);
    if probe != own {
      PriceRecorded(Perform(lines, Op.RecordPrice(route, p.(tokens := own)), time).0, route, p.(tokens := probe), cProbe, time);
    }
  }

  lemma {:induction false} NoAdmits(lines: seq<Entry>, m: nat, route: string)
    requires m <= |lines| && forall k :: 0 <= k < m ==> !lines[k].body.Admit?
    ensures CellCount(lines, m, route) == 0 && OtherReserve(lines, m, route) == 0
  {
    if m > 0 {
      NoAdmits(lines, m - 1, route);
    }
  }

  /** A ledger of an open line and price lines has admitted nothing and owes nothing. */
  lemma NothingYet(lines: seq<Entry>, t: Terms)
    requires Parse(lines).Some? && forall k :: 0 < k < |lines| ==> lines[k].body.Price?
    requires PriceAt(Parse(lines).value, t.route, t.own) == Some(t.c)
    requires PriceAt(Parse(lines).value, t.route, t.probe) == Some(t.cProbe)
    ensures CellCount(lines, |lines|, t.route) == 0 && OtherReserve(lines, |lines|, t.route) == 0
    ensures Within(lines, t) && RouteWorth(Parse(lines).value, t.route) == 0.0
  {
    NoLog(lines, t);
    NoWorth(lines, t);
  }

  lemma NoLog(lines: seq<Entry>, t: Terms)
    requires Parse(lines).Some? && forall k :: 0 < k < |lines| ==> lines[k].body.Price?
    ensures NoOverrunOn(lines, t.route) && EditionLog(lines, t.route, t.own, t.probe, t.schedule)
    ensures CellCount(lines, |lines|, t.route) == 0 && OtherReserve(lines, |lines|, t.route) == 0
  {
    ReplayChain(lines, 0);
    NoAdmits(lines, |lines|, t.route);
  }

  lemma NoWorth(lines: seq<Entry>, t: Terms)
    requires Within(lines, t)
    requires CellCount(lines, |lines|, t.route) == 0 && OtherReserve(lines, |lines|, t.route) == 0
    ensures RouteWorth(Parse(lines).value, t.route) == 0.0
  {
    NoCharge(lines, t, t.own);
    NoCharge(lines, t, t.probe);
    WorthIs(lines, t.route, t.own, t.probe, t.c, t.cProbe, t.schedule);
  }

  lemma NoCharge(lines: seq<Entry>, t: Terms, tok: Tokens)
    requires Within(lines, t)
    requires CellCount(lines, |lines|, t.route) == 0 && OtherReserve(lines, |lines|, t.route) == 0
    ensures ChargedAt(Parse(lines).value, t.route, tok) == 0
  {
    OtherOne(lines, |lines|, t.route, tok);
    ChargedWithin(lines, t.route, tok, t.own, t.probe, t.schedule);
  }

  lemma CreatedOwes(caps: Caps, time: int, route: string)
    requires ValidCaps(caps)
    ensures Parse(Created(caps, time)).Some?
    ensures var st := Parse(Created(caps, time)).value;
      && st.caps == caps && st.routeCaps == RouteCapsOf(caps)
      && st.liabilityCap == caps.liability.value && Besides(st, route) == 0.0
      && forall tok :: PriceAt(st, route, tok).None?
  {
    CreatedState(caps, time);
    ReplaySound(Created(caps, time));
    var st := Parse(Created(caps, time)).value;
    assert Worth(map[], UsageOf(st, route).prices) == 0.0;
  }

  ghost predicate Capped(caps: Caps, cfg: C.Config) {
    ValidCaps(caps) && cfg.route in caps.routeLiability && caps.routeLiability[cfg.route].value == cfg.routeCap
  }

  /** The ledger a release starts from: created under the route's cap, its list price recorded. */
  ghost function Opening(caps: Caps, cfg: C.Config, p: ListPrice, time: int): seq<Entry> {
    WithList(Created(caps, time), cfg.route, p, Tokens(cfg.input, cfg.ceiling), Tokens(cfg.input, cfg.probeCeiling), time)
  }

  /** It is within the plan's terms, with nothing yet admitted; and with no request cap it is
      one where only the route's cap can refuse. */
  lemma EditionStarts(caps: Caps, cfg: C.Config, p: ListPrice, prices: C.Prices, plan: C.Plan, top: nat, time: int)
    requires Capped(caps, cfg) && C.ValidConfig(cfg) && C.PricesOf(cfg, p) == Some(prices)
    requires C.PlanFits(cfg, plan) && 1 <= top <= |cfg.steps| && plan.cells <= plan.probes
    ensures var lines, t := Opening(caps, cfg, p, time), TermsOf(cfg, plan, prices, top);
      && Within(lines, t) && CellCount(lines, |lines|, cfg.route) == 0 && OtherReserve(lines, |lines|, cfg.route) == 0
      && cfg.route in Parse(lines).value.routeCaps && Parse(lines).value.routeCaps[cfg.route] == cfg.routeCap
      && (caps.routeRequests == 0 && caps.totalRequests == 0 ==> Ready(lines, t))
  {
    var own, probe := Tokens(cfg.input, cfg.ceiling), Tokens(cfg.input, cfg.probeCeiling);
    var lines, t := Opening(caps, cfg, p, time), TermsOf(cfg, plan, prices, top);
    CreatedOwes(caps, time, cfg.route);
    ListRecorded(Created(caps, time), cfg.route, p, own, probe, prices.c, prices.cProbe, time);
    NothingYet(lines, t);
    assert Reserved(0, 0, t) == 0.0;
  }

  lemma WorstMono(t: Terms, fewer: nat)
    requires fewer <= t.cells
    ensures t.(cells := fewer).Worst() <= t.Worst()
  {
    C.IntMulMono(1 + t.schedule, fewer, t.cells);
    TimesMono(fewer * (1 + t.schedule), t.cells * (1 + t.schedule), t.c, t.c);
  }

  /** The whole release: from its first line, through any operations of any processes, with
      as many cells as its loop ever starts through any crashes and restarts, no cell is
      refused at the route's cap that the edition test passed. */
  lemma TheRelease(caps: Caps, cfg: C.Config, p: ListPrice, prices: C.Prices, plan: C.Plan, top: nat, time: int,
                   s: seq<R.Cell>, turns: seq<R.Turn>, ops: seq<(Op, int)>, k: nat)
    requires Capped(caps, cfg) && C.ValidConfig(cfg) && C.PricesOf(cfg, p) == Some(prices)
    requires C.PlanFits(cfg, plan) && 1 <= top <= |cfg.steps| && C.RouteCapTest(cfg, top - 1, plan, prices).pass
    requires R.ValidSchedule(s) && |s| == RELEASE_CELLS && plan.cells == RELEASE_CELLS + RELEASE_RERUNS <= plan.probes
    ensures var lines := Opening(caps, cfg, p, time);
      var t := TermsOf(cfg, plan, prices, top).(cells := |R.Play(s, map[], turns).log|);
      Parse(lines).Some? && !RefusesCell(lines, ops, k, t)
  {
    var lines, most := Opening(caps, cfg, p, time), TermsOf(cfg, plan, prices, top);
    var t := most.(cells := |R.Play(s, map[], turns).log|);
    EditionStarts(caps, cfg, p, prices, plan, top, time);
    R.RouteEnds(s, turns);
    WorstMono(most, t.cells);
    C.ProbeNoCheaper(cfg, p);
    EditionCovers(cfg, plan, prices, top);
    NoCellRefused(lines, ops, k, t);
  }

  // ----- a ledger dearer than the verdict

  /** A route priced dear and later cheap: the verdict takes the newest price, and the
      ledger counts at the highest, at which one cell passes the route's cap. */
  ghost predicate DearCase(caps: Caps, cfg: C.Config, dear: ListPrice, cheap: ListPrice, plan: C.Plan, top: nat) {
    && Capped(caps, cfg) && caps.routeRequests == 0 && caps.totalRequests == 0 && C.ValidConfig(cfg)
    && C.PlanFits(cfg, plan) && 1 <= top <= |cfg.steps| && plan.cells <= plan.probes
    && C.PricesOf(cfg, dear).Some? && C.PricesOf(cfg, cheap).Some?
    && dear.retrieved.Some? && cheap.retrieved.Some? && dear.retrieved.value <= cheap.retrieved.value
    && C.NoDearer(C.PricesOf(cfg, cheap).value, C.PricesOf(cfg, dear).value)
    && C.RouteCapTest(cfg, top - 1, plan, C.PricesOf(cfg, cheap).value).pass
    && Times(1 + C.CellRequests(plan, top - 1), C.PricesOf(cfg, dear).value.c) > cfg.routeCap
  }

  /** The ledger of such a case. */
  ghost function DearLedger(caps: Caps, cfg: C.Config, dear: ListPrice, cheap: ListPrice, time: int): seq<Entry> {
    WithList(Opening(caps, cfg, dear, time), cfg.route, cheap, Tokens(cfg.input, cfg.ceiling),
             Tokens(cfg.input, cfg.probeCeiling), time)
  }

  lemma DearPriced(caps: Caps, cfg: C.Config, dear: ListPrice, cheap: ListPrice, plan: C.Plan, top: nat, time: int)
    requires DearCase(caps, cfg, dear, cheap, plan, top)
    ensures var lines, d := DearLedger(caps, cfg, dear, cheap, time), C.PricesOf(cfg, dear).value;
      && Ready(lines, TermsOf(cfg, plan, d, top))
      && CellCount(lines, |lines|, cfg.route) == 0 && RouteWorth(Parse(lines).value, cfg.route) == 0.0
      && Parse(lines).value.routeCaps[cfg.route] == cfg.routeCap
      && F.Dated(lines) && F.Newest(lines, cfg.route, |lines| - 1)
      && lines[|lines| - 1].body.list == cheap.(tokens := lines[|lines| - 1].body.list.tokens)
  {
    var own, probe := Tokens(cfg.input, cfg.ceiling), Tokens(cfg.input, cfg.probeCeiling);
    var d, v, first := C.PricesOf(cfg, dear).value, C.PricesOf(cfg, cheap).value, Created(caps, time);
    var t := TermsOf(cfg, plan, d, top);
    var opening, lines := Opening(caps, cfg, dear, time), DearLedger(caps, cfg, dear, cheap, time);
    CreatedOwes(caps, time, cfg.route);
    ListRecorded(first, cfg.route, dear, own, probe, d.c, d.cProbe, time);
    ListRecorded(opening, cfg.route, cheap, own, probe, v.c, v.cProbe, time);
    AllPrices(first, opening, lines, cfg.route, dear, cheap);
    NothingYet(lines, t);
    assert Reserved(0, 0, t) == 0.0;
    F.CheckedIsDated(lines);
  }

  lemma AllPrices(first: seq<Entry>, opening: seq<Entry>, lines: seq<Entry>, route: string, dear: ListPrice, cheap: ListPrice)
    requires |first| == 1 && first <= opening && opening <= lines
    requires PriceLinesFrom(opening, 1, route, dear) && PriceLinesFrom(lines, |opening|, route, cheap)
    ensures forall k :: 0 < k < |lines| ==> lines[k].body.Price? && (lines[k].body.list == dear.(tokens := lines[k].body.list.tokens)
                                                                    || lines[k].body.list == cheap.(tokens := lines[k].body.list.tokens))
  {
    forall k | 0 < k < |lines|
      ensures lines[k] == if k < |opening| then opening[k] else lines[k]
    {
    }
  }

  /** The verdict's price is covered, its edition test passes, nothing overran, no cell is
      admitted yet, and the first scheduled cell is refused at the route's cap: the start's
      check that the ledger covers the verdict is no guard against it. */
  lemma CoveredYetRefused(caps: Caps, cfg: C.Config, dear: ListPrice, cheap: ListPrice, plan: C.Plan, top: nat, time: int)
    requires DearCase(caps, cfg, dear, cheap, plan, top)
    ensures var lines := DearLedger(caps, cfg, dear, cheap, time);
      var own, v := Tokens(cfg.input, cfg.ceiling), C.PricesOf(cfg, cheap).value;
      && Parse(lines).Some? && Covers(Parse(lines).value, cfg, v) && C.RouteCapTest(cfg, top - 1, plan, v).pass
      && F.Dated(lines) && F.Newest(lines, cfg.route, |lines| - 1)
      && C.PricesOf(cfg, lines[|lines| - 1].body.list) == Some(v)
      && NoOverrunOn(lines, cfg.route) && CellCount(lines, |lines|, cfg.route) == 0
      && CellOp(TermsOf(cfg, plan, C.PricesOf(cfg, dear).value, top))
           == Reserve(cfg.route, Cell, 1 + C.CellRequests(plan, top - 1), own, None)
      && Perform(lines, CellOp(TermsOf(cfg, plan, C.PricesOf(cfg, dear).value, top)), 0).1 == RefusedFor(RouteLiability)
  {
    var lines, t := DearLedger(caps, cfg, dear, cheap, time), TermsOf(cfg, plan, C.PricesOf(cfg, dear).value, top);
    DearPriced(caps, cfg, dear, cheap, plan, top, time);
    DearRefused(caps, cfg, dear, cheap, plan, top, time);
    DearCovers(lines, t, cfg, C.PricesOf(cfg, cheap).value);
    SameList(cfg, cheap, lines[|lines| - 1].body.list);
  }

  lemma DearRefused(caps: Caps, cfg: C.Config, dear: ListPrice, cheap: ListPrice, plan: C.Plan, top: nat, time: int)
    requires DearCase(caps, cfg, dear, cheap, plan, top)
    ensures var lines, t := DearLedger(caps, cfg, dear, cheap, time), TermsOf(cfg, plan, C.PricesOf(cfg, dear).value, top);
      Perform(lines, CellOp(t), 0).1 == RefusedFor(RouteLiability)
  {
    var lines, t := DearLedger(caps, cfg, dear, cheap, time), TermsOf(cfg, plan, C.PricesOf(cfg, dear).value, top);
    DearPriced(caps, cfg, dear, cheap, plan, top, time);
    CellOutcome(lines, t);
  }

  lemma DearCovers(lines: seq<Entry>, t: Terms, cfg: C.Config, v: C.Prices)
    requires Within(lines, t) && t.route == cfg.route && v.c <= t.c && v.cProbe <= t.cProbe
    requires t.own == Tokens(cfg.input, cfg.ceiling) && t.probe == Tokens(cfg.input, cfg.probeCeiling)
    ensures Covers(Parse(lines).value, cfg, v)
  {
  }

  lemma SameList(cfg: C.Config, p: ListPrice, q: ListPrice)
    requires cfg.ceiling <= cfg.probeCeiling && q == p.(tokens := q.tokens)
    ensures C.PricesOf(cfg, q) == C.PricesOf(cfg, p)
  {
  }

  /** The edition test at the ledger's own prices is the guard: it fails there. */
  lemma OwnPricesGuard(caps: Caps, cfg: C.Config, dear: ListPrice, cheap: ListPrice, plan: C.Plan, top: nat)
    requires DearCase(caps, cfg, dear, cheap, plan, top)
    ensures !C.RouteCapTest(cfg, top - 1, plan, C.PricesOf(cfg, dear).value).pass
  {
    var d := C.PricesOf(cfg, dear).value;
    var t := TermsOf(cfg, plan, d, top);
    C.ProbeNoCheaper(cfg, dear);
    EditionCovers(cfg, plan, d, top);
    WorstArithmetic(0, 1 + t.schedule, 0, t);
  }

  /** Such a case: one dollar a request, then a hundred-thousandth of one, under a cap of half a dollar. */
  lemma DearCaseExists(route: string, day: nat)
    requires route != ""
    ensures exists caps: Caps, cfg: C.Config, dear: ListPrice, cheap: ListPrice, plan: C.Plan ::
      cfg.route == route && DearCase(caps, cfg, dear, cheap, plan, 1)
  {
    var cap := map[route := Dec(0.5)];
    var caps := Caps(0, 0, Dec(0.5), cap, 0, 0, 0);
    var cfg := C.Config(route, [1.0], [], 0, 1, 1, 1, 60, 0.5);
    var dear, cheap := ListOf(500_000.0, day), ListOf(5.0, day);
    var plan := C.Plan(1, [1], 14, 6, 100);
    SmallPrices(route, 500_000.0, 1.0, day);
    SmallPrices(route, 5.0, 0.00001, day);
    SmallEdition(cfg, plan);
    assert DearCase(caps, cfg, dear, cheap, plan, 1);
  }

  function ListOf(usd: Usd, day: nat): ListPrice { ListPrice(Dec(usd), Dec(usd), Tokens(1, 1), true, Some(day)) }

  lemma SmallPrices(route: string, usd: Usd, each: Usd, day: nat)
    requires route != "" && 2.0 * usd == each * 1_000_000.0
    ensures CheckPrice(route, ListOf(usd, day).(tokens := Tokens(1, 1))) == Some(each)
  {
    TimesStep(1, usd);
  }

  lemma SmallEdition(cfg: C.Config, plan: C.Plan)
    requires plan == C.Plan(1, [1], 14, 6, 100) && cfg.routeCap == 0.5
    ensures C.CellRequests(plan, 0) == 2 && Times(3, 1.0) > 0.5
    ensures C.RouteCapTest(cfg, 0, plan, C.Prices(0.00001, 0.00001)).pass
  {
    TimesIs(28, 0.00001);
    TimesIs(100, 0.00001);
    TimesIs(3, 1.0);
  }
}
