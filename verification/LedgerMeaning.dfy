// The replayed state read straight off the lines: the highest price, the last
// price line, the unsettled admissions, and what every admission is charged.
module LedgerMeaning {
  import opened Prelude
  import opened Ledger
  import opened LedgerState

  ghost predicate PriceLine(e: Entry, route: string) {
    e.body.Price? && e.body.route == route
  }

  ghost predicate PriceLineAt(e: Entry, route: string, tok: Tokens) {
    PriceLine(e, route) && e.body.list.tokens == tok
  }

  /** The last line of a ledger that replays, and the state before it. */
  lemma LastLine(lines: seq<Entry>)
    requires Replay(lines).Some? && lines != []
    ensures var prior, e := lines[..|lines| - 1], lines[|lines| - 1];
      && lines == prior + [e]
      && Replay(prior).Some? && Sound(Replay(prior).value) && Replay(prior).value.lines == |prior|
      && e.seqNo == |lines| && Apply(Replay(prior).value, e).Some?
      && Replay(lines).value == Apply(Replay(prior).value, e).value.(lines := |lines|)
  {
    ReplaySound(lines[..|lines| - 1]);
  }

  /** rev is the number of the route's last price line, 0 where it has none. */
  ghost predicate LastPriceLine(lines: seq<Entry>, route: string, rev: int) {
    && 0 <= rev <= |lines|
    && (rev > 0 ==> PriceLine(lines[rev - 1], route))
    && (forall k :: rev <= k < |lines| ==> !PriceLine(lines[k], route))
  }

  lemma LastPriceLineStep(prior: seq<Entry>, e: Entry, route: string, rev: int)
    requires LastPriceLine(prior, route, rev)
    ensures LastPriceLine(prior + [e], route, if PriceLine(e, route) then |prior| + 1 else rev)
  {
  }

  /** A route's price revision is the number of its last price line. */
  lemma {:induction false} RevisionMeaning(lines: seq<Entry>, route: string)
    requires Replay(lines).Some?
    ensures LastPriceLine(lines, route, PriceRevision(Replay(lines).value, route))
    decreases |lines|
  {
    if lines != [] {
      var prior, e := lines[..|lines| - 1], lines[|lines| - 1];
      LastLine(lines);
      RevisionMeaning(prior, route);
      RevisionStep(Replay(prior).value, e, route);
      LastPriceLineStep(prior, e, route, PriceRevision(Replay(prior).value, route));
    }
  }

  lemma RevisionStep(st: State, e: Entry, route: string)
    requires Apply(st, e).Some?
    ensures PriceRevision(Apply(st, e).value, route)
         == if PriceLine(e, route) then e.seqNo else PriceRevision(st, route)
  {
  }

  lemma PriceStep(st: State, e: Entry, route: string, tok: Tokens)
    requires Apply(st, e).Some?
    ensures var was, now := PriceAt(st, route, tok), PriceAt(Apply(st, e).value, route, tok);
      if !PriceLineAt(e, route, tok) then now == was
      else if was.Some? && e.body.perRequest <= was.value then now == was
      else now.Some? && now.value == e.body.perRequest
  {
  }

  /** The highest price: no line for the route at the bounds is dearer, and one is as dear. */
  ghost predicate Highest(lines: seq<Entry>, route: string, tok: Tokens, price: Option<Usd>) {
    && (forall k :: 0 <= k < |lines| && PriceLineAt(lines[k], route, tok) ==>
         price.Some? && lines[k].body.perRequest <= price.value)
    && (price.Some? ==> exists k :: 0 <= k < |lines| && PriceLineAt(lines[k], route, tok)
                                    && lines[k].body.perRequest == price.value)
  }

  /** The price requests are counted at is the highest ever recorded for the route at their bounds. */
  lemma {:induction false} PriceMeaning(lines: seq<Entry>, route: string, tok: Tokens)
    requires Replay(lines).Some?
    ensures Highest(lines, route, tok, PriceAt(Replay(lines).value, route, tok))
    decreases |lines|
  {
    if lines != [] {
      var prior, e := lines[..|lines| - 1], lines[|lines| - 1];
      LastLine(lines);
      PriceMeaning(prior, route, tok);
      PriceStep(Replay(prior).value, e, route, tok);
      HighestStep(prior, e, route, tok, PriceAt(Replay(prior).value, route, tok), PriceAt(Replay(lines).value, route, tok));
    }
  }

  lemma HighestStep(prior: seq<Entry>, e: Entry, route: string, tok: Tokens, was: Option<Usd>, now: Option<Usd>)
    requires Highest(prior, route, tok, was)
    requires if !PriceLineAt(e, route, tok) then now == was
             else if was.Some? && e.body.perRequest <= was.value then now == was
             else now.Some? && now.value == e.body.perRequest
    ensures Highest(prior + [e], route, tok, now)
  {
    var lines := prior + [e];
    forall k | 0 <= k < |lines| && PriceLineAt(lines[k], route, tok)
      ensures now.Some? && lines[k].body.perRequest <= now.value
    {
      if k < |prior| {
        assert lines[k] == prior[k];
      }
    }
    if now.Some? {
      if now == was {
        var k :| 0 <= k < |prior| && PriceLineAt(prior[k], route, tok) && prior[k].body.perRequest == was.value;
        assert lines[k] == prior[k];
      } else {
        assert lines[|prior|] == e;
      }
    }
  }

  lemma HighestUnique(lines: seq<Entry>, longer: seq<Entry>, route: string, tok: Tokens, p: Option<Usd>, q: Option<Usd>)
    requires Highest(lines, route, tok, p) && Highest(longer, route, tok, q)
    requires lines <= longer && forall k :: |lines| <= k < |longer| ==> !PriceLine(longer[k], route)
    ensures p == q
  {
    if p.Some? {
      var k :| 0 <= k < |lines| && PriceLineAt(lines[k], route, tok) && lines[k].body.perRequest == p.value;
      assert longer[k] == lines[k];
    }
    if q.Some? {
      var k :| 0 <= k < |longer| && PriceLineAt(longer[k], route, tok) && longer[k].body.perRequest == q.value;
      assert k < |lines| && longer[k] == lines[k];
    }
  }

  /** An unchanged revision means no price line since, and so unchanged prices; a
      changed one means there is one. */
  lemma RevisionFixesPrices(lines: seq<Entry>, longer: seq<Entry>, route: string)
    requires Replay(lines).Some? && Replay(longer).Some? && lines <= longer
    ensures var st, later := Replay(lines).value, Replay(longer).value;
      && (PriceRevision(later, route) == PriceRevision(st, route)
          <==> forall k :: |lines| <= k < |longer| ==> !PriceLine(longer[k], route))
      && (PriceRevision(later, route) == PriceRevision(st, route)
          ==> forall tok :: PriceAt(later, route, tok) == PriceAt(st, route, tok))
  {
    var st, later := Replay(lines).value, Replay(longer).value;
    RevisionMeaning(lines, route);
    RevisionMeaning(longer, route);
    var rev := PriceRevision(later, route);
    if rev == PriceRevision(st, route) {
      forall tok
        ensures PriceAt(later, route, tok) == PriceAt(st, route, tok)
      {
        PriceMeaning(lines, route, tok);
        PriceMeaning(longer, route, tok);
        HighestUnique(lines, longer, route, tok, PriceAt(st, route, tok), PriceAt(later, route, tok));
      }
    } else if forall k :: |lines| <= k < |longer| ==> !PriceLine(longer[k], route) {
      SameLast(lines, longer, route, PriceRevision(st, route), rev);
    }
  }

  lemma SameLast(lines: seq<Entry>, longer: seq<Entry>, route: string, p: int, q: int)
    requires lines <= longer && 0 <= p <= |lines| && 0 <= q <= |longer|
    requires p > 0 ==> PriceLine(lines[p - 1], route)
    requires q > 0 ==> PriceLine(longer[q - 1], route)
    requires forall k :: p <= k < |lines| ==> !PriceLine(lines[k], route)
    requires forall k :: q <= k < |longer| ==> !PriceLine(longer[k], route)
    requires forall k :: |lines| <= k < |longer| ==> !PriceLine(longer[k], route)
    ensures p == q
  {
    if p > 0 {
      assert longer[p - 1] == lines[p - 1];
    }
    if q > 0 {
      assert q <= |lines|;
      assert longer[q - 1] == lines[q - 1];
    }
  }

  // ----- admissions and what they are charged

  /** The counts the line settling admission n carries, None while it is unsettled. */
  ghost function SettledWith(lines: seq<Entry>, n: int): Option<Counts>
    decreases |lines|
  {
    if lines == [] then None else
    var e := lines[|lines| - 1];
    if e.body.Settle? && e.body.admit == n then e.body.sent else SettledWith(lines[..|lines| - 1], n)
  }

  lemma SettledStep(prior: seq<Entry>, e: Entry, n: int)
    ensures SettledWith(prior + [e], n)
         == if e.body.Settle? && e.body.admit == n then e.body.sent else SettledWith(prior, n)
  {
    assert (prior + [e])[..|prior|] == prior;
  }

  ghost predicate Unsettled(lines: seq<Entry>, n: int) {
    1 <= n <= |lines| && lines[n - 1].body.Admit? && SettledWith(lines, n).None?
  }

  lemma OpenStep(st: State, e: Entry, n: int)
    requires OpenSound(st) && e.seqNo == st.lines + 1 && Apply(st, e).Some?
    ensures var after := Apply(st, e).value;
      && (n in after.open <==>
           (n in st.open && !(e.body.Settle? && e.body.admit == n)) || (e.body.Admit? && n == e.seqNo))
      && (n in after.open ==> after.open[n] == if n in st.open then st.open[n] else AdmissionOf(e))
      && (e.body.Settle? ==> e.body.sent.Some?)
  {
  }

  lemma {:induction false} NoEarlySettle(lines: seq<Entry>, n: int)
    requires Replay(lines).Some? && n > |lines|
    ensures SettledWith(lines, n).None?
    decreases |lines|
  {
    if lines != [] {
      LastLine(lines);
      NoEarlySettle(lines[..|lines| - 1], n);
    }
  }

  /** The open admissions are exactly the admit lines no later line settles. */
  lemma {:induction false} OpenMeaning(lines: seq<Entry>, n: int)
    requires Replay(lines).Some?
    ensures var open := Replay(lines).value.open;
      && (n in open <==> Unsettled(lines, n))
      && (n in open ==> open[n] == AdmissionOf(lines[n - 1]))
    decreases |lines|
  {
    if lines != [] {
      var prior, e := lines[..|lines| - 1], lines[|lines| - 1];
      LastLine(lines);
      OpenMeaning(prior, n);
      OpenStep(Replay(prior).value, e, n);
      SettledStep(prior, e, n);
      if 1 <= n <= |prior| {
        assert prior[n - 1] == lines[n - 1];
      } else if n == |lines| {
        NoEarlySettle(prior, n);
        assert lines[n - 1] == e;
        assert e.body.Settle? ==> e.body.admit <= |prior|;
      }
    }
  }

  /** What admit line k (from 0) is charged: the requests sent once settled, its reservation before. */
  ghost function ChargeOf(lines: seq<Entry>, k: nat): int
    requires k < |lines| && lines[k].body.Admit?
  {
    match SettledWith(lines, k + 1)
    case Some(c) => c.Total()
    case None => lines[k].body.reserve
  }

  ghost predicate AdmitsAt(e: Entry, route: string, tok: Tokens) {
    e.body.Admit? && e.body.route == route && e.body.tokens == tok
  }

  /** The charges of the first m lines' admissions of the route at the bounds. */
  ghost function LogCharge(lines: seq<Entry>, m: nat, route: string, tok: Tokens): int
    requires m <= |lines|
  {
    if m == 0 then 0 else
    LogCharge(lines, m - 1, route, tok) + (if AdmitsAt(lines[m - 1], route, tok) then ChargeOf(lines, m - 1) else 0)
  }

  lemma {:induction false} LogChargeStep(prior: seq<Entry>, e: Entry, m: nat, route: string, tok: Tokens)
    requires m <= |prior|
    requires e.body.Settle? ==> e.body.sent.Some? && Unsettled(prior, e.body.admit)
    ensures LogCharge(prior + [e], m, route, tok) == LogCharge(prior, m, route, tok)
         + (if e.body.Settle? && e.body.admit <= m && AdmitsAt(prior[e.body.admit - 1], route, tok)
            then e.body.sent.value.Total() - prior[e.body.admit - 1].body.reserve else 0)
  {
    if m > 0 {
      LogChargeStep(prior, e, m - 1, route, tok);
      SettledStep(prior, e, m);
    }
  }

  function ChargedAt(st: State, route: string, tok: Tokens): int {
    var n := UsageOf(st, route).charged;
    if tok in n then n[tok] else 0
  }

  lemma ChargedStep(st: State, e: Entry, route: string, tok: Tokens)
    requires OpenSound(st) && Apply(st, e).Some?
    ensures ChargedAt(Apply(st, e).value, route, tok) == ChargedAt(st, route, tok)
         + (if AdmitsAt(e, route, tok) then e.body.reserve
            else if e.body.Settle? && st.open[e.body.admit].route == route && st.open[e.body.admit].tokens == tok
            then e.body.sent.value.Total() - st.open[e.body.admit].reserve else 0)
  {
  }

  lemma LogChargeLine(st: State, prior: seq<Entry>, e: Entry, route: string, tok: Tokens)
    requires SettledWith(prior + [e], |prior| + 1).None?
    requires e.body.Settle? ==>
               && e.body.sent.Some? && Unsettled(prior, e.body.admit)
               && e.body.admit in st.open && st.open[e.body.admit] == AdmissionOf(prior[e.body.admit - 1])
    ensures LogCharge(prior + [e], |prior| + 1, route, tok) == LogCharge(prior, |prior|, route, tok)
         + (if AdmitsAt(e, route, tok) then e.body.reserve
            else if e.body.Settle? && st.open[e.body.admit].route == route && st.open[e.body.admit].tokens == tok
            then e.body.sent.value.Total() - st.open[e.body.admit].reserve else 0)
  {
    LogChargeStep(prior, e, |prior|, route, tok);
    assert (prior + [e])[|prior|] == e;
  }

  lemma SettlesOpen(st: State, e: Entry)
    requires e.body.Settle? && Apply(st, e).Some?
    ensures e.body.sent.Some? && e.body.admit in st.open
  {
  }

  lemma LastUnsettled(prior: seq<Entry>, e: Entry)
    requires Replay(prior).Some?
    requires e.body.Settle? ==> e.body.admit <= |prior|
    ensures SettledWith(prior + [e], |prior| + 1).None?
  {
    NoEarlySettle(prior, |prior| + 1);
    SettledStep(prior, e, |prior| + 1);
  }

  lemma SettlesEarlier(prior: seq<Entry>, e: Entry)
    requires Replay(prior).Some? && Sound(Replay(prior).value) && Replay(prior).value.lines == |prior|
    requires e.body.Settle? && Apply(Replay(prior).value, e).Some?
    ensures e.body.admit <= |prior|
  {
    SettlesOpen(Replay(prior).value, e);
  }

  lemma ChargeLine(prior: seq<Entry>, e: Entry, route: string, tok: Tokens)
    requires Replay(prior).Some? && Sound(Replay(prior).value) && Apply(Replay(prior).value, e).Some?
    requires e.body.Settle? ==> e.body.admit <= |prior|
    ensures ChargedAt(Apply(Replay(prior).value, e).value, route, tok) - ChargedAt(Replay(prior).value, route, tok)
         == LogCharge(prior + [e], |prior| + 1, route, tok) - LogCharge(prior, |prior|, route, tok)
  {
    LastUnsettled(prior, e);
    if e.body.Settle? {
      SettlesOpen(Replay(prior).value, e);
      OpenMeaning(prior, e.body.admit);
    }
    ChargedStep(Replay(prior).value, e, route, tok);
    LogChargeLine(Replay(prior).value, prior, e, route, tok);
  }

  lemma ChargedLines(st: State, n: nat, route: string, tok: Tokens)
    ensures ChargedAt(st.(lines := n), route, tok) == ChargedAt(st, route, tok)
  {
  }

  /** Conservation against the log: a route's charge at its token bounds is the sum
      over its admissions of what each is charged. */
  lemma {:induction false} ChargeMeaning(lines: seq<Entry>, route: string, tok: Tokens)
    requires Replay(lines).Some?
    ensures ChargedAt(Replay(lines).value, route, tok) == LogCharge(lines, |lines|, route, tok)
    decreases |lines|
  {
    if lines != [] {
      var prior, e := lines[..|lines| - 1], lines[|lines| - 1];
      LastLine(lines);
      ChargeMeaning(prior, route, tok);
      if e.body.Settle? {
        SettlesEarlier(prior, e);
      }
      ChargeLine(prior, e, route, tok);
      ChargedLines(Apply(Replay(prior).value, e).value, |lines|, route, tok);
    }
  }

  // ----- the requests sent, by class

  datatype Class = ProbeSent | DevelopmentSent | WarmupSent | MeasuredSent | ReplacementSent | StillReserved

  function InClass(u: Usage, class_: Class): int {
    match class_
    case ProbeSent => u.probe
    case DevelopmentSent => u.development
    case WarmupSent => u.warmup
    case MeasuredSent => u.measured
    case ReplacementSent => u.replacement
    case StillReserved => u.reserved
  }

  /** What the counts c, sent under a purpose, add to a class: a replacement window's
      warm-up and measured requests are counted apart. */
  function Part(class_: Class, replaced: bool, c: Counts): int {
    match class_
    case ProbeSent => c.probe
    case DevelopmentSent => c.development
    case WarmupSent => if replaced then 0 else c.warmup
    case MeasuredSent => if replaced then 0 else c.measured
    case ReplacementSent => if replaced then c.warmup + c.measured else 0
    case StillReserved => 0
  }

  /** The admit line that settle line e names. */
  ghost predicate Names(lines: seq<Entry>, e: Entry) {
    e.body.Settle? && e.body.sent.Some? && 1 <= e.body.admit <= |lines| && lines[e.body.admit - 1].body.Admit?
  }

  /** What one line adds to a route's class, its admit line looked up among the lines. */
  ghost function LineSent(lines: seq<Entry>, e: Entry, route: string, class_: Class): int {
    if class_.StillReserved? then
      (if e.body.Admit? && e.body.route == route then e.body.reserve
       else if Names(lines, e) && e.body.route == route then -lines[e.body.admit - 1].body.reserve else 0)
    else if Names(lines, e) && e.body.route == route
    then Part(class_, lines[e.body.admit - 1].body.purpose.Replacement?, e.body.sent.value) else 0
  }

  ghost function LogSent(lines: seq<Entry>, route: string, class_: Class): int {
    if lines == [] then 0 else
    var prior, e := lines[..|lines| - 1], lines[|lines| - 1];
    LogSent(prior, route, class_) + LineSent(prior, e, route, class_)
  }

  lemma ClassStep(st: State, e: Entry, route: string, class_: Class)
    requires Apply(st, e).Some?
    ensures InClass(UsageOf(Apply(st, e).value, route), class_) == InClass(UsageOf(st, route), class_)
         + (if e.body.Settle? && e.body.route == route then
              (if class_.StillReserved? then -st.open[e.body.admit].reserve
               else Part(class_, st.open[e.body.admit].purpose.Replacement?, e.body.sent.value))
            else if class_.StillReserved? && e.body.Admit? && e.body.route == route then e.body.reserve else 0)
  {
  }

  lemma LineSentIs(st: State, prior: seq<Entry>, e: Entry, route: string, class_: Class)
    requires e.body.Settle? ==>
               && Names(prior, e) && e.body.admit in st.open
               && st.open[e.body.admit].reserve == prior[e.body.admit - 1].body.reserve
               && st.open[e.body.admit].purpose == prior[e.body.admit - 1].body.purpose
    ensures LineSent(prior, e, route, class_)
         == if e.body.Settle? && e.body.route == route then
              (if class_.StillReserved? then -st.open[e.body.admit].reserve
               else Part(class_, st.open[e.body.admit].purpose.Replacement?, e.body.sent.value))
            else if class_.StillReserved? && e.body.Admit? && e.body.route == route then e.body.reserve else 0
  {
  }

  lemma SettleNames(prior: seq<Entry>, e: Entry)
    requires Replay(prior).Some? && e.body.Settle? && Apply(Replay(prior).value, e).Some?
    ensures var st := Replay(prior).value;
      && Names(prior, e) && e.body.admit in st.open
      && st.open[e.body.admit] == AdmissionOf(prior[e.body.admit - 1])
  {
    SettlesOpen(Replay(prior).value, e);
    OpenMeaning(prior, e.body.admit);
  }

  lemma ClassLine(prior: seq<Entry>, e: Entry, route: string, class_: Class)
    requires Replay(prior).Some? && Apply(Replay(prior).value, e).Some?
    ensures var st := Replay(prior).value;
      InClass(UsageOf(Apply(st, e).value, route), class_) == InClass(UsageOf(st, route), class_) + LineSent(prior, e, route, class_)
  {
    if e.body.Settle? {
      SettleNames(prior, e);
    }
    ClassStep(Replay(prior).value, e, route, class_);
    LineSentIs(Replay(prior).value, prior, e, route, class_);
  }

  /** Every class of a route's usage is what the log's lines for the route add to it. */
  lemma {:induction false} ClassMeaning(lines: seq<Entry>, route: string, class_: Class)
    requires Replay(lines).Some?
    ensures InClass(UsageOf(Replay(lines).value, route), class_) == LogSent(lines, route, class_)
    decreases |lines|
  {
    if lines != [] {
      LastClass(lines, route, class_);
      ClassMeaning(lines[..|lines| - 1], route, class_);
    }
  }

  lemma LastClass(lines: seq<Entry>, route: string, class_: Class)
    requires Replay(lines).Some? && lines != []
    ensures var prior, e := lines[..|lines| - 1], lines[|lines| - 1];
      && Replay(prior).Some?
      && InClass(UsageOf(Replay(lines).value, route), class_)
           == InClass(UsageOf(Replay(prior).value, route), class_) + LineSent(prior, e, route, class_)
  {
    var prior, e := lines[..|lines| - 1], lines[|lines| - 1];
    LastLine(lines);
    var after := Apply(Replay(prior).value, e).value;
    ClassLine(prior, e, route, class_);
    UsageLines(after, |lines|, route);
  }

  lemma UsageLines(st: State, n: nat, route: string)
    ensures UsageOf(st.(lines := n), route) == UsageOf(st, route)
  {
  }
}
