// A cell's start checks (runCell in cmd/percentes-release/cell.go): one ledger
// snapshot's price feeds the limits and balance checks, other processes may write
// in between, and the admission holds only at the revision that was checked.
module CellStart {
  import opened Prelude
  import opened Ledger
  import opened LedgerState
  import opened LedgerRuns
  import opened LedgerCaps
  import opened LedgerMeaning
  import opened LedgerDecision
  import opened LedgerBook

  // ----- check then admit

  ghost predicate PricedSince(lines: seq<Entry>, longer: seq<Entry>, route: string) {
    exists k :: |lines| <= k < |longer| && PriceLine(longer[k], route)
  }

  /** An admission written at a checked revision adds exactly the checked reservation. */
  lemma CheckedPrice(lines: seq<Entry>, later: seq<Entry>, route: string, purpose: Purpose, n: int, tok: Tokens, time: int)
    requires Parse(lines).Some? && Parse(later).Some? && lines <= later
    requires var op := Reserve(route, purpose, n, tok, Some(PriceRevision(Parse(lines).value, route)));
      Perform(later, op, time).1.Written?
    ensures var st := Parse(lines).value;
      var (file, outcome) := Perform(later, Reserve(route, purpose, n, tok, Some(PriceRevision(st, route))), time);
      && file == later + [outcome.line] && Parse(file).Some?
      && ReservationUSD(st, route, n, tok).Some?
      && Liabilities(Parse(file).value) == Liabilities(Parse(later).value) + ReservationUSD(st, route, n, tok).value
      && RouteWorth(Parse(file).value, route)
           == RouteWorth(Parse(later).value, route) + ReservationUSD(st, route, n, tok).value
  {
    var st := Parse(lines).value;
    var rev := Some(PriceRevision(st, route));
    var e := Perform(later, Reserve(route, purpose, n, tok, rev), time).1.line;
    AdmitLandsWithinCaps(later, route, purpose, n, tok, rev, time);
    RevisionFixesPrices(lines, later, route);
    WrittenPrice(Parse(later).value, route, purpose, n, tok, rev);
    LedgerLineEffect(later, e, route);
  }

  lemma WrittenPrice(st: State, route: string, purpose: Purpose, n: int, tok: Tokens, rev: Option<int>)
    requires DraftAdmit(st, route, purpose, n, tok, rev).Line?
    ensures var b := DraftAdmit(st, route, purpose, n, tok, rev).body;
      && b.Admit? && b.reserve == n && PriceAt(st, route, tok) == Some(b.perRequest)
      && (rev.Some? ==> PriceRevision(st, route) == rev.value)
  {
  }

  lemma StaleExactly(st: State, route: string, purpose: Purpose, n: int, tok: Tokens, rev: int)
    requires route != ""
    ensures DraftAdmit(st, route, purpose, n, tok, Some(rev)).Stale? <==> PriceRevision(st, route) != rev
  {
  }

  /** Check then admit: with any operations of other processes in between, the
      admission is turned away exactly when the route was priced since the check,
      and then the ledger is unchanged. */
  lemma CheckThenAdmit(lines: seq<Entry>, others: seq<(Op, int)>, route: string, purpose: Purpose, n: int,
                       tok: Tokens, time: int)
    requires Parse(lines).Some? && route != ""
    ensures var st, later := Parse(lines).value, Run(lines, others);
      var (file, outcome) := Perform(later, Reserve(route, purpose, n, tok, Some(PriceRevision(st, route))), time);
      && Parse(later).Some?
      && (outcome.PriceChanged? <==> PricedSince(lines, later, route))
      && (outcome.PriceChanged? ==> file == later)
      && (outcome.Written? ==>
            && ReservationUSD(st, route, n, tok).Some?
            && Parse(file).Some?
            && Liabilities(Parse(file).value)
                 == Liabilities(Parse(later).value) + ReservationUSD(st, route, n, tok).value)
  {
    var st, later := Parse(lines).value, Run(lines, others);
    RunParses(lines, others);
    RevisionFixesPrices(lines, later, route);
    StaleExactly(Parse(later).value, route, purpose, n, tok, PriceRevision(st, route));
    if Perform(later, Reserve(route, purpose, n, tok, Some(PriceRevision(st, route))), time).1.Written? {
      CheckedPrice(lines, later, route, purpose, n, tok, time);
    }
  }

  // ----- the start loop

  /** What the cell meets: the other processes' operations before each check's
      snapshot and before its admission, what the checks find (limits may fail),
      and the clock. */
  datatype Env = Env(before: nat -> seq<(Op, int)>, during: nat -> seq<(Op, int)>,
                     clockStops: bool, operatorFault: bool,
                     limitsStop: (nat, seq<Entry>) -> Option<bool>,
                     balanceBlocks: (nat, real) -> bool,
                     time: nat -> int)

  datatype Started =
    | Admitted(check: nat, line: Entry, need: real)
    | StoppedByClock
    | StoppedByLimits
    | StoppedByLedger(reason: Reason)
    | BlockedByOperator
    | BlockedByBalance
    | BlockedByPrice
    | Error

  ghost function Snapshot(lines: seq<Entry>, env: Env, check: nat): seq<Entry> {
    Run(lines, env.before(check))
  }

  /** Where one check leaves the start: ended, or turned away by a price recorded meanwhile. */
  datatype Turn = Ended(file: seq<Entry>, started: Started) | Repriced(file: seq<Entry>)

  /** What one check of a ledger that reads ends the start for, if anything. */
  ghost function Stop(st: State, snap: seq<Entry>, env: Env, route: string, n: int, tok: Tokens, check: nat): Option<Started> {
    var stop := if env.operatorFault then Some(false) else env.limitsStop(check, snap);
    var need := ReservationUSD(st, route, n, tok);
    if stop.None? || need.None? then Some(Error)
    else if env.clockStops then Some(StoppedByClock)
    else if stop.value then Some(StoppedByLimits)
    else if env.operatorFault then Some(BlockedByOperator)
    else if env.balanceBlocks(check, need.value) then Some(BlockedByBalance)
    else None
  }

  /** One check and its admission. */
  ghost function Checked(lines: seq<Entry>, env: Env, route: string, n: int, tok: Tokens, check: nat): Turn {
    var snap := Snapshot(lines, env, check);
    if Parse(snap).None? then Ended(snap, Error) else
    var st := Parse(snap).value;
    match Stop(st, snap, env, route, n, tok, check)
    case Some(started) => Ended(snap, started)
    case None =>
      var op := Reserve(route, Cell, n, tok, Some(PriceRevision(st, route)));
      var (file, outcome) := Perform(Run(snap, env.during(check)), op, env.time(check));
      match outcome
      case Written(line) => Ended(file, Admitted(check, line, ReservationUSD(st, route, n, tok).GetOr(0.0)))
      case PriceChanged(_, _) => Repriced(file)
      case RefusedFor(reason) => Ended(file, StoppedByLedger(reason))
      case _ => Ended(file, Error)
  }

  /** The start from one check on; a price recorded meanwhile repeats the checks once. */
  ghost function Start(lines: seq<Entry>, env: Env, route: string, n: int, tok: Tokens, check: nat): (seq<Entry>, Started)
    requires 1 <= check <= 2
    decreases 2 - check
  {
    match Checked(lines, env, route, n, tok, check)
    case Ended(file, started) => (file, started)
    case Repriced(file) => if check == 1 then Start(file, env, route, n, tok, 2) else (file, BlockedByPrice)
  }

  /** The snapshot a check read: the limits held there, and the need was its reservation. */
  ghost predicate CheckedAt(snap: seq<Entry>, file: seq<Entry>, check: nat, need: real, env: Env, route: string, n: int,
                            tok: Tokens)
  {
    && Parse(snap).Some? && snap <= file
    && env.limitsStop(check, snap) == Some(false)
    && ReservationUSD(Parse(snap).value, route, n, tok) == Some(need)
  }

  /** What an admitted cell was checked against: the limits held and the balance covered
      the reservation at one snapshot's price, and that is exactly the liability its
      admission, of its requests at its bounds, added. */
  ghost predicate CheckedStart(file: seq<Entry>, started: Started, env: Env, route: string, n: int, tok: Tokens)
    requires started.Admitted?
  {
    && 1 <= started.check <= 2
    && !env.clockStops && !env.operatorFault && !env.balanceBlocks(started.check, started.need)
    && (exists snap :: CheckedAt(snap, file, started.check, started.need, env, route, n, tok))
    && file != [] && file[|file| - 1] == started.line && started.line.body.Admit? && started.line.body.route == route
    && started.line.body.reserve == n && started.line.body.tokens == tok
    && Parse(file).Some? && Parse(file[..|file| - 1]).Some?
    && Liabilities(Parse(file).value) == Liabilities(Parse(file[..|file| - 1]).value) + started.need
    && RouteWorth(Parse(file).value, route) == RouteWorth(Parse(file[..|file| - 1]).value, route) + started.need
  }

  /** One check's admission. */
  lemma OneCheck(snap: seq<Entry>, others: seq<(Op, int)>, route: string, n: int, tok: Tokens, time: int)
    requires Parse(snap).Some? && route != ""
    ensures var later := Run(snap, others);
      var (file, outcome) := Perform(later, Reserve(route, Cell, n, tok, Some(PriceRevision(Parse(snap).value, route))), time);
      && Parse(later).Some? && snap <= later
      && (outcome.PriceChanged? <==> PricedSince(snap, later, route))
      && (outcome.PriceChanged? ==> file == later)
      && (outcome.Written? ==>
            && file == later + [outcome.line] && file[..|file| - 1] == later && Parse(file).Some?
            && outcome.line.body.Admit? && outcome.line.body.route == route
            && outcome.line.body.reserve == n && outcome.line.body.tokens == tok
            && ReservationUSD(Parse(snap).value, route, n, tok).Some?
            && var need := ReservationUSD(Parse(snap).value, route, n, tok).value;
               && Liabilities(Parse(file).value) == Liabilities(Parse(later).value) + need
               && RouteWorth(Parse(file).value, route) == RouteWorth(Parse(later).value, route) + need)
  {
    var later := Run(snap, others);
    var rev := Some(PriceRevision(Parse(snap).value, route));
    CheckThenAdmit(snap, others, route, Cell, n, tok, time);
    RunParses(snap, others);
    if Perform(later, Reserve(route, Cell, n, tok, rev), time).1.Written? {
      CheckedPrice(snap, later, route, Cell, n, tok, time);
      AdmitLandsWithinCaps(later, route, Cell, n, tok, rev, time);
    }
  }

  // ----- which start ends how

  /** One check: its number, the ledger it read, and the ledger its admission meets. */
  datatype Check = Check(number: nat, snap: seq<Entry>, later: seq<Entry>)

  ghost function FirstCheck(lines: seq<Entry>, env: Env): Check {
    var snap := Run(lines, env.before(1));
    Check(1, snap, Run(snap, env.during(1)))
  }

  ghost function SecondCheck(lines: seq<Entry>, env: Env): Check {
    var snap := Run(FirstCheck(lines, env).later, env.before(2));
    Check(2, snap, Run(snap, env.during(2)))
  }

  /** What a cell asks to admit. */
  datatype Ask = Ask(route: string, n: int, tok: Tokens) {
    predicate InOrder() { n >= 1 && tok.input >= 1 && tok.output >= 1 }
  }

  /** The check can be made: the ledger reads, the limits do, and the route has a price at the bounds. */
  ghost predicate Readable(c: Check, env: Env, k: Ask) {
    && Parse(c.snap).Some? && (env.operatorFault || env.limitsStop(c.number, c.snap).Some?)
    && PriceAt(Parse(c.snap).value, k.route, k.tok).Some?
  }

  /** What the balance must cover: each request at the highest price the check read. */
  ghost function Need(c: Check, env: Env, k: Ask): real
    requires Readable(c, env, k)
  {
    k.n as real * PriceAt(Parse(c.snap).value, k.route, k.tok).value
  }

  ghost predicate LimitsHold(c: Check, env: Env, k: Ask) {
    Readable(c, env, k) && !env.clockStops && !env.operatorFault && env.limitsStop(c.number, c.snap) == Some(false)
  }

  /** Clock, operator, limits and balance all let the cell start. */
  ghost predicate Clear(c: Check, env: Env, k: Ask) {
    LimitsHold(c, env, k) && !env.balanceBlocks(c.number, Need(c, env, k))
  }

  ghost predicate Priced(c: Check, k: Ask) { PricedSince(c.snap, c.later, k.route) }

  /** Nothing but the caps is left to decide. */
  ghost predicate Decides(c: Check, env: Env, k: Ask) { Clear(c, env, k) && !Priced(c, k) && k.InOrder() }

  /** How a start ends whose last check is c: each outcome exactly by the finding that causes
      it, and the ledger it leaves. */
  ghost predicate EndsAt(c: Check, env: Env, k: Ask, file: seq<Entry>, started: Started) {
    && (started.Error? <==> !Readable(c, env, k) || (Clear(c, env, k) && !Priced(c, k) && !k.InOrder()))
    && (started.StoppedByClock? <==> Readable(c, env, k) && env.clockStops)
    && (started.StoppedByLimits? <==> Readable(c, env, k) && !env.clockStops && !env.operatorFault
                                      && env.limitsStop(c.number, c.snap) == Some(true))
    && (started.BlockedByOperator? <==> Readable(c, env, k) && !env.clockStops && env.operatorFault)
    && (started.BlockedByBalance? <==> LimitsHold(c, env, k) && env.balanceBlocks(c.number, Need(c, env, k)))
    && (started.BlockedByPrice? <==> Clear(c, env, k) && Priced(c, k))
    && (started.Admitted? <==> Decides(c, env, k) && Parse(c.later).Some? && Why(Parse(c.later).value, k.route, k.tok, k.n).None?)
    && (started.StoppedByLedger? <==> Decides(c, env, k) && Parse(c.later).Some?
                                      && Why(Parse(c.later).value, k.route, k.tok, k.n).Some?)
    && (started.StoppedByLedger? ==> Some(started.reason) == Why(Parse(c.later).value, k.route, k.tok, k.n))
    && (started.Admitted? ==>
          started.check == c.number && started.need == Need(c, env, k) && file == c.later + [started.line])
    && (!Clear(c, env, k) ==> file == c.snap)
    && (Clear(c, env, k) && !Decides(c, env, k) ==> file == c.later)
    && (Clear(c, env, k) ==> Parse(c.later).Some? && file == Asked(c, env, k).0)
    && (Decides(c, env, k) ==> |file| == |c.later| + 1 && c.later <= file)
  }

  /** A check's admission, at the revision it read. */
  ghost function Asked(c: Check, env: Env, k: Ask): (seq<Entry>, Outcome)
    requires Parse(c.snap).Some?
  {
    var rev := Some(PriceRevision(Parse(c.snap).value, k.route));
    Perform(c.later, Reserve(k.route, Cell, k.n, k.tok, rev), env.time(c.number))
  }

  /** The admission a clear check makes. */
  lemma ClearAdmission(c: Check, env: Env, k: Ask, time: int)
    requires Clear(c, env, k) && Parse(c.later).Some? && c.snap <= c.later && k.route != ""
    ensures var st, rev := Parse(c.later).value, Some(PriceRevision(Parse(c.snap).value, k.route));
      var (file, outcome) := Perform(c.later, Reserve(k.route, Cell, k.n, k.tok, rev), time);
      && (outcome.PriceChanged? <==> Priced(c, k))
      && (!Decides(c, env, k) ==> file == c.later && (outcome.PriceChanged? || outcome.Failed?))
      && (Decides(c, env, k) ==>
            && |file| == |c.later| + 1 && c.later <= file
            && match Why(st, k.route, k.tok, k.n)
               case None => outcome == Written(file[|c.later|])
               case Some(reason) => outcome == RefusedFor(reason))
  {
    var rev := PriceRevision(Parse(c.snap).value, k.route);
    RevisionFixesPrices(c.snap, c.later, k.route);
    if WellAsked(Parse(c.later).value, k.route, Cell, k.n, k.tok, Some(rev)) {
      AdmitExactly(c.later, k.route, Cell, k.n, k.tok, Some(rev), time);
      AdmitAppends(c.later, k, Some(rev), time);
    } else {
      NotAsked(c.later, k.route, Cell, k.n, k.tok, Some(rev), time);
    }
  }

  lemma AdmitAppends(lines: seq<Entry>, k: Ask, rev: Option<int>, time: int)
    requires Parse(lines).Some?
    ensures var (file, outcome) := Perform(lines, Reserve(k.route, Cell, k.n, k.tok, rev), time);
      lines <= file && (outcome.Written? ==> file == lines + [outcome.line])
  {
    PerformParses(lines, Reserve(k.route, Cell, k.n, k.tok, rev), time);
  }

  /** How a check ends its start, if it is not clear. */
  ghost function Found(c: Check, env: Env, k: Ask): Option<Started> {
    if !Readable(c, env, k) then Some(Error)
    else if env.clockStops then Some(StoppedByClock)
    else if !env.operatorFault && env.limitsStop(c.number, c.snap).value then Some(StoppedByLimits)
    else if env.operatorFault then Some(BlockedByOperator)
    else if env.balanceBlocks(c.number, Need(c, env, k)) then Some(BlockedByBalance)
    else None
  }

  lemma NeedIs(c: Check, env: Env, k: Ask)
    requires Readable(c, env, k)
    ensures ReservationUSD(Parse(c.snap).value, k.route, k.n, k.tok) == Some(Need(c, env, k))
  {
    var p := PriceAt(Parse(c.snap).value, k.route, k.tok).value;
    TimesIs(k.n, p);
    assert ReservationUSD(Parse(c.snap).value, k.route, k.n, k.tok) == Some(Times(k.n, p));
    assert Need(c, env, k) == Times(k.n, p);
  }

  lemma StopIs(c: Check, env: Env, k: Ask)
    requires Parse(c.snap).Some?
    ensures Stop(Parse(c.snap).value, c.snap, env, k.route, k.n, k.tok, c.number) == Found(c, env, k)
  {
    if Readable(c, env, k) {
      NeedIs(c, env, k);
    }
  }

  lemma FoundEnds(c: Check, env: Env, k: Ask)
    ensures Found(c, env, k).None? <==> Clear(c, env, k)
    ensures !Clear(c, env, k) ==> EndsAt(c, env, k, c.snap, Found(c, env, k).value)
  {
  }

  lemma NotClear(lines: seq<Entry>, env: Env, k: Ask, c: Check)
    requires 1 <= c.number <= 2 && c.snap == Run(lines, env.before(c.number)) && !Clear(c, env, k)
    ensures Found(c, env, k).Some?
    ensures Checked(lines, env, k.route, k.n, k.tok, c.number) == Ended(c.snap, Found(c, env, k).value)
  {
    FoundEnds(c, env, k);
    if Parse(c.snap).Some? {
      StopIs(c, env, k);
    }
  }

  lemma ClearStart(lines: seq<Entry>, env: Env, k: Ask, c: Check)
    requires 1 <= c.number <= 2 && c.snap == Run(lines, env.before(c.number)) && Clear(c, env, k)
    requires c.later == Run(c.snap, env.during(c.number))
    ensures var (file, outcome) := Asked(c, env, k);
      Checked(lines, env, k.route, k.n, k.tok, c.number)
        == match outcome
           case Written(line) => Ended(file, Admitted(c.number, line, Need(c, env, k)))
           case PriceChanged(_, _) => Repriced(file)
           case RefusedFor(reason) => Ended(file, StoppedByLedger(reason))
           case _ => Ended(file, Error)
  {
    FoundEnds(c, env, k);
    StopIs(c, env, k);
    NeedIs(c, env, k);
  }

  lemma ClearEnds(c: Check, env: Env, k: Ask, started: Started)
    requires Clear(c, env, k) && Parse(c.later).Some?
    requires var (file, outcome) := Asked(c, env, k);
      && (outcome.PriceChanged? <==> Priced(c, k))
      && (!Decides(c, env, k) ==> file == c.later && (outcome.PriceChanged? || outcome.Failed?))
      && (Decides(c, env, k) ==>
            && |file| == |c.later| + 1 && c.later <= file
            && match Why(Parse(c.later).value, k.route, k.tok, k.n)
               case None => outcome == Written(file[|c.later|])
               case Some(reason) => outcome == RefusedFor(reason))
      && started == match outcome
                    case Written(line) => Admitted(c.number, line, Need(c, env, k))
                    case PriceChanged(_, _) => BlockedByPrice
                    case RefusedFor(reason) => StoppedByLedger(reason)
                    case _ => Error
    ensures EndsAt(c, env, k, Asked(c, env, k).0, started)
  {
    var file := Asked(c, env, k).0;
    assert Decides(c, env, k) ==> file == c.later + [file[|c.later|]];
  }

  /** A check either ends its start or, priced meanwhile, starts the second. */
  lemma CheckEnds(lines: seq<Entry>, env: Env, k: Ask, c: Check)
    requires 1 <= c.number <= 2 && k.route != "" && Parse(lines).Some?
    requires c.snap == Run(lines, env.before(c.number)) && c.later == Run(c.snap, env.during(c.number))
    ensures var (file, started) := Start(lines, env, k.route, k.n, k.tok, c.number);
      if c.number == 1 && Clear(c, env, k) && Priced(c, k)
      then Start(lines, env, k.route, k.n, k.tok, 1) == Start(c.later, env, k.route, k.n, k.tok, 2)
      else EndsAt(c, env, k, file, started)
  {
    RunParses(lines, env.before(c.number));
    RunParses(c.snap, env.during(c.number));
    if Clear(c, env, k) {
      ClearStart(lines, env, k, c);
      ClearAdmission(c, env, k, env.time(c.number));
      if c.number == 2 || !Priced(c, k) {
        ClearEnds(c, env, k, Start(lines, env, k.route, k.n, k.tok, c.number).1);
      }
    } else {
      FoundEnds(c, env, k);
      NotClear(lines, env, k, c);
    }
  }

  /** Every start, exactly: it checks again if and only if its first check was clear and the
      route was priced before its admission, and then ends as its last check has it. */
  lemma StartExactly(lines: seq<Entry>, env: Env, k: Ask)
    requires k.route != "" && Parse(lines).Some?
    ensures var (file, started) := Start(lines, env, k.route, k.n, k.tok, 1);
      var c := FirstCheck(lines, env);
      if Clear(c, env, k) && Priced(c, k) then EndsAt(SecondCheck(lines, env), env, k, file, started)
      else EndsAt(c, env, k, file, started)
  {
    var c := FirstCheck(lines, env);
    CheckEnds(lines, env, k, c);
    RunParses(lines, env.before(1));
    RunParses(c.snap, env.during(1));
    CheckEnds(c.later, env, k, SecondCheck(lines, env));
  }

  /** The check a start ends at. */
  ghost function LastCheck(lines: seq<Entry>, env: Env, k: Ask): Check {
    var c := FirstCheck(lines, env);
    if Clear(c, env, k) && Priced(c, k) then SecondCheck(lines, env) else c
  }

  /** A cell that starts was admitted as its checks found it. */
  lemma AdmittedAsChecked(lines: seq<Entry>, env: Env, route: string, n: int, tok: Tokens)
    requires route != "" && Parse(lines).Some?
    ensures var (file, started) := Start(lines, env, route, n, tok, 1);
      started.Admitted? ==> CheckedStart(file, started, env, route, n, tok)
  {
    var k := Ask(route, n, tok);
    var c := LastCheck(lines, env, k);
    StartExactly(lines, env, k);
    var (file, started) := Start(lines, env, route, n, tok, 1);
    if started.Admitted? {
      AdmittedCheck(c, env, k, file, started);
    }
  }

  lemma AdmittedCheck(c: Check, env: Env, k: Ask, file: seq<Entry>, started: Started)
    requires 1 <= c.number <= 2 && k.route != "" && c.later == Run(c.snap, env.during(c.number))
    requires EndsAt(c, env, k, file, started) && started.Admitted?
    ensures CheckedStart(file, started, env, k.route, k.n, k.tok)
  {
    NeedIs(c, env, k);
    OneCheck(c.snap, env.during(c.number), k.route, k.n, k.tok, env.time(c.number));
    ClearAdmission(c, env, k, env.time(c.number));
    assert file[..|file| - 1] == c.later;
    assert CheckedAt(c.snap, file, c.number, started.need, env, k.route, k.n, k.tok);
  }

  /** A cell blocked by the price met a new price in each of its two checks. */
  lemma BlockedTwice(lines: seq<Entry>, env: Env, route: string, n: int, tok: Tokens, check: nat)
    requires 1 <= check <= 2 && route != "" && Parse(lines).Some?
    requires Start(lines, env, route, n, tok, check).1.BlockedByPrice?
    ensures var snap := Snapshot(lines, env, check);
      && PricedSince(snap, Run(snap, env.during(check)), route)
      && (check == 1 ==>
            var again := Snapshot(Run(snap, env.during(1)), env, 2);
            PricedSince(again, Run(again, env.during(2)), route))
  {
    var k, snap := Ask(route, n, tok), Snapshot(lines, env, check);
    var c := Check(check, snap, Run(snap, env.during(check)));
    CheckEnds(lines, env, k, c);
    if check == 1 {
      StartExactly(lines, env, k);
    }
  }

  // ----- as it runs

  lemma RunOne(lines: seq<Entry>, ops: seq<(Op, int)>, k: nat)
    requires k < |ops|
    ensures Run(lines, ops[..k + 1]) == Perform(Run(lines, ops[..k]), ops[k].0, ops[k].1).0
  {
    assert ops[..k + 1][..k] == ops[..k];
  }

  /** The other processes' operations, one at a time. */
  method Interleave(l: LedgerFile, ops: seq<(Op, int)>)
    modifies l
    ensures l.file == Run(old(l.file), ops)
  {
    for k := 0 to |ops|
      invariant l.file == Run(old(l.file), ops[..k])
    {
      RunOne(old(l.file), ops, k);
      var _ := OneOp(l, ops[k].0, ops[k].1);
    }
    assert ops[..|ops|] == ops;
  }

  method OneOp(l: LedgerFile, op: Op, time: int) returns (r: Outcome)
    modifies l
    ensures (l.file, r) == Perform(old(l.file), op, time)
  {
    match op
    case RecordPrice(route, list) => r := l.RecordPrice(route, list, time);
    case RecordHosting(usd, noteEmpty) => r := l.RecordHosting(usd, noteEmpty, time);
    case Reserve(route, purpose, n, tok, rev) => r := l.Admit(route, purpose, n, tok, rev, time);
    case SettleOp(a, sent) => r := l.Settle(a, sent, time);
  }

  /** One check and its admission among the other processes; None is an admission the price turned away. */
  method RunCheck(l: LedgerFile, env: Env, route: string, n: int, tok: Tokens, check: nat) returns (started: Option<Started>)
    modifies l
    ensures Checked(old(l.file), env, route, n, tok, check)
         == if started.Some? then Ended(l.file, started.value) else Repriced(l.file)
  {
    Interleave(l, env.before(check));
    var st := Read(l.file);
    if st == null {
      return Some(Error);
    }
    var stop := if env.operatorFault then Some(false) else env.limitsStop(check, l.file);
    var rev := PriceRevision(st.Model(), route);
    var need := ReservationUSD(st.Model(), route, n, tok);
    if stop.None? || need.None? {
      return Some(Error);
    }
    if env.clockStops {
      return Some(StoppedByClock);
    }
    if stop.value {
      return Some(StoppedByLimits);
    }
    if env.operatorFault {
      return Some(BlockedByOperator);
    }
    if env.balanceBlocks(check, need.value) {
      return Some(BlockedByBalance);
    }
    Interleave(l, env.during(check));
    var r := l.Admit(route, Cell, n, tok, Some(rev), env.time(check));
    match r
    case Written(line) => return Some(Admitted(check, line, need.value));
    case PriceChanged(_, _) => return None;
    case RefusedFor(reason) => return Some(StoppedByLedger(reason));
    case _ => return Some(Error);
  }

  /** The cell's check, admit and retry loop among the other processes. */
  method RunStart(l: LedgerFile, env: Env, route: string, n: int, tok: Tokens) returns (started: Started)
    modifies l
    ensures (l.file, started) == Start(old(l.file), env, route, n, tok, 1)
  {
    var check := 1;
    while true
      invariant 1 <= check <= 2
      invariant Start(old(l.file), env, route, n, tok, 1) == Start(l.file, env, route, n, tok, check)
      decreases 2 - check
    {
      var r := RunCheck(l, env, route, n, tok, check);
      if r.Some? {
        return r.value;
      }
      if check != 1 {
        return BlockedByPrice;
      }
      check := check + 1;
    }
  }
}
