// Which lines a ledger accepts (apply in internal/admission/ledger.go), said of the
// lines alone: no replayed state, and none of the program's own checks.
module LedgerReading {
  import opened Prelude
  import opened Ledger
  import opened LedgerState
  import opened LedgerMeaning

  // ----- prices

  /** A list price for a route at two positive bounds, from a URL at a date. */
  ghost predicate Listable(route: string, p: ListPrice) {
    && route != "" && p.tokens.input >= 1 && p.tokens.output >= 1 && p.sourceOk && p.retrieved.Some?
    && p.input.Dec? && p.output.Dec?
  }

  /** What a request at the bounds costs: each million tokens its side's list price. */
  ghost predicate Costs(p: ListPrice, each: real)
    requires p.input.Dec? && p.output.Dec?
  {
    each * 1_000_000.0 == p.tokens.input as real * p.input.value + p.tokens.output as real * p.output.value
  }

  /** A price checks exactly when it can be listed, and is then what a request costs. */
  lemma PriceExactly(route: string, p: ListPrice)
    ensures CheckPrice(route, p).Some? <==> Listable(route, p)
    ensures Listable(route, p) ==> Costs(p, CheckPrice(route, p).value)
  {
    if Listable(route, p) {
      TimesIs(p.tokens.input, p.input.value);
      TimesIs(p.tokens.output, p.output.value);
    }
  }

  /** A million input tokens alone cost the input price, a million output tokens the
      output price, and tokens cost the same apart as together. */
  lemma MillionTokens(input: Usd, output: Usd, a: Tokens, b: Tokens)
    ensures PerRequest(input, output, Tokens(1_000_000, 0)) == input
    ensures PerRequest(input, output, Tokens(0, 1_000_000)) == output
    ensures PerRequest(input, output, Tokens(a.input + b.input, a.output + b.output))
         == PerRequest(input, output, a) + PerRequest(input, output, b)
  {
    TimesIs(1_000_000, input);
    TimesIs(1_000_000, output);
    TimesAdd(a.input, b.input, input);
    TimesAdd(a.output, b.output, output);
  }

  // ----- counts

  /** Counts a purpose sends: none negative, and each class only where it belongs. */
  ghost predicate Belong(purpose: Purpose, c: Counts) {
    && !purpose.Unknown? && c.probe >= 0 && c.development >= 0 && c.warmup >= 0 && c.measured >= 0
    && (c.probe > 0 ==> !purpose.Development?)
    && (c.development > 0 ==> purpose.Development?)
    && (c.warmup > 0 || c.measured > 0 ==> !purpose.Probe? && !purpose.Development?)
  }

  lemma BelongExactly(purpose: Purpose, c: Counts)
    ensures CountsAllowed(purpose, c) <==> Belong(purpose, c)
  {
  }

  // ----- caps

  /** Caps that hold together: nothing negative, both token bounds or neither, and no
      route's cap over the global one. */
  ghost predicate Sane(c: Caps) {
    && c.routeRequests >= 0 && c.totalRequests >= 0 && c.windowRequests >= 0 && c.maxInput >= 0 && c.maxOutput >= 0
    && (c.maxInput > 0 <==> c.maxOutput > 0)
    && c.liability.Dec? && c.liability.value > 0.0 && "" !in c.routeLiability
    && forall name :: name in c.routeLiability ==>
         c.routeLiability[name].Dec? && 0.0 < c.routeLiability[name].value <= c.liability.value
  }

  lemma SaneExactly(c: Caps)
    ensures ValidCaps(c) <==> Sane(c)
  {
  }

  lemma {:induction false} CapsMeaning(lines: seq<Entry>)
    requires Replay(lines).Some? && lines != []
    ensures lines[0].body.Open? && lines[0].body.caps == Some(Replay(lines).value.caps)
    ensures CapsAre(Replay(lines).value)
    decreases |lines|
  {
    var prior, e := lines[..|lines| - 1], lines[|lines| - 1];
    LastLine(lines);
    if prior != [] {
      CapsMeaning(prior);
      CapsStep(Replay(prior).value, e);
    } else {
      FirstCaps(Replay(prior).value, e);
    }
  }

  /** The caps a ledger decides by are those it was opened with. */
  ghost predicate CapsAre(st: State) {
    && st.caps.liability == Dec(st.liabilityCap)
    && (forall name :: name in st.routeCaps <==> name in st.caps.routeLiability)
    && (forall name :: name in st.routeCaps ==> st.caps.routeLiability[name] == Dec(st.routeCaps[name]))
  }

  lemma CapsStep(st: State, e: Entry)
    requires Apply(st, e).Some? && e.seqNo != 1
    ensures Apply(st, e).value.caps == st.caps && (CapsAre(st) ==> CapsAre(Apply(st, e).value))
  {
  }

  lemma FirstCaps(st: State, e: Entry)
    requires Apply(st, e).Some? && e.seqNo == 1
    ensures e.body.Open? && e.body.caps == Some(Apply(st, e).value.caps) && CapsAre(Apply(st, e).value)
  {
  }

  // ----- lines

  /** What line e may be after the lines prior. */
  ghost predicate Fits(prior: seq<Entry>, e: Entry) {
    match e.body
    case Open(version, caps) => prior == [] && version == 1 && caps.Some? && Sane(caps.value)
    case Price(route, list, each) => prior != [] && Listable(route, list) && Costs(list, each)
    case Hosting(usd) => prior != [] && usd.Dec?
    case Admit(route, tok, each, purpose, n, _, _) => prior != [] && AdmitFits(prior, route, tok, each, purpose, n)
    case Refused(_, _, _, _, _) => prior != []
    case Settle(route, admit, sent, overrun) =>
      Unsettled(prior, admit) && sent.Some? && SettleFits(AdmissionOf(prior[admit - 1]), route, sent.value, overrun)
    case UnknownKind => false
  }

  /** An admission of some requests at the highest price recorded before it; a window
      or its replacement is always of the caps' number. */
  ghost predicate AdmitFits(prior: seq<Entry>, route: string, tok: Tokens, each: real, purpose: Purpose, n: int)
    requires prior != []
  {
    && route != "" && n >= 1 && !purpose.Unknown?
    && (purpose.Window? || purpose.Replacement? ==>
          prior[0].body.Open? && prior[0].body.caps.Some? && n == prior[0].body.caps.value.windowRequests)
    && each >= 0.0 && Highest(prior, route, tok, Some(each))
  }

  ghost predicate SettleFits(a: Admission, route: string, sent: Counts, overrun: bool) {
    && a.route == route && Belong(a.purpose, sent)
    && (overrun <==> sent.probe + sent.development + sent.warmup + sent.measured > a.reserve)
  }

  lemma AdmitApplies(prior: seq<Entry>, e: Entry)
    requires Replay(prior).Some? && prior != [] && e.body.Admit? && e.seqNo != 1
    ensures Apply(Replay(prior).value, e).Some?
       <==> AdmitFits(prior, e.body.route, e.body.tokens, e.body.perRequest, e.body.purpose, e.body.reserve)
  {
    var st, b := Replay(prior).value, e.body;
    CapsMeaning(prior);
    HighestIs(prior, b.route, b.tokens, b.perRequest);
    AdmitChecks(st, e);
  }

  lemma HighestIs(prior: seq<Entry>, route: string, tok: Tokens, each: real)
    requires Replay(prior).Some?
    ensures PriceAt(Replay(prior).value, route, tok) == Some(each)
       <==> each >= 0.0 && Highest(prior, route, tok, Some(each))
  {
    PriceMeaning(prior, route, tok);
    if each >= 0.0 && Highest(prior, route, tok, Some(each)) {
      HighestUnique(prior, prior, route, tok, PriceAt(Replay(prior).value, route, tok), Some(each));
    }
  }

  lemma AdmitChecks(st: State, e: Entry)
    requires e.body.Admit? && e.seqNo != 1
    ensures var b := e.body;
      Apply(st, e).Some? <==>
        && b.route != "" && b.reserve >= 1 && !b.purpose.Unknown?
        && (b.purpose.Window? || b.purpose.Replacement? ==> b.reserve == st.caps.windowRequests)
        && PriceAt(st, b.route, b.tokens) == Some(b.perRequest)
  {
  }

  lemma SettleApplies(prior: seq<Entry>, e: Entry)
    requires Replay(prior).Some? && e.body.Settle? && e.seqNo != 1
    ensures Apply(Replay(prior).value, e).Some? <==> Fits(prior, e)
  {
    OpenMeaning(prior, e.body.admit);
    if Unsettled(prior, e.body.admit) && e.body.sent.Some? {
      BelongExactly(prior[e.body.admit - 1].body.purpose, e.body.sent.value);
    }
    SettleChecks(Replay(prior).value, e);
  }

  lemma SettleChecks(st: State, e: Entry)
    requires e.body.Settle? && e.seqNo != 1
    ensures Apply(st, e).Some? <==>
      && e.body.admit in st.open && e.body.sent.Some?
      && var a, c := st.open[e.body.admit], e.body.sent.value;
         a.route == e.body.route && CountsAllowed(a.purpose, c) && (e.body.overrun <==> c.Total() > a.reserve)
  {
  }

  lemma OtherApplies(prior: seq<Entry>, st: State, e: Entry)
    requires !e.body.Admit? && !e.body.Settle? && (e.seqNo == 1 <==> prior == [])
    ensures Apply(st, e).Some? <==> Fits(prior, e)
  {
    match e.body
    case Open(_, caps) =>
      if caps.Some? {
        SaneExactly(caps.value);
      }
    case Price(route, list, _) => PriceExactly(route, list);
    case _ =>
  }

  /** A line is read exactly when it is numbered and chained next and fits the lines before it. */
  lemma ReadsExactly(prior: seq<Entry>, e: Entry)
    requires Replay(prior).Some?
    ensures Replay(prior + [e]).Some? <==> e.seqNo == |prior| + 1 && e.prev == Sha(prior) && Fits(prior, e)
  {
    ReplaySound(prior);
    ReplayAppend(prior, e);
    if e.seqNo == |prior| + 1 {
      if prior == [] {
        if e.body.Settle? {
          SettleNone(e);
        } else {
          FirstApplies(Replay(prior).value, e);
        }
      } else if e.body.Admit? {
        AdmitApplies(prior, e);
      } else if e.body.Settle? {
        SettleApplies(prior, e);
      } else {
        OtherApplies(prior, Replay(prior).value, e);
      }
    }
  }

  lemma SettleNone(e: Entry)
    requires e.body.Settle? && e.seqNo == 1
    ensures Apply(FRESH, e).None? && !Fits([], e)
  {
  }

  lemma FirstApplies(st: State, e: Entry)
    requires e.seqNo == 1 && !e.body.Settle?
    ensures Apply(st, e).Some? <==> Fits([], e)
  {
    if e.body.Admit? {
      assert !Fits([], e);
    } else {
      OtherApplies([], st, e);
    }
  }

  /** Line k continues the lines before it. */
  ghost predicate Continues(lines: seq<Entry>, k: nat)
    requires k < |lines|
  {
    lines[k].seqNo == k + 1 && lines[k].prev == Sha(lines[..k]) && Fits(lines[..k], lines[k])
  }

  /** A file is a ledger exactly when it has a line and every line continues those before it. */
  lemma {:induction false} LedgerExactly(lines: seq<Entry>)
    ensures Replay(lines).Some? <==> forall k :: 0 <= k < |lines| ==> Continues(lines, k)
    decreases |lines|
  {
    if lines != [] {
      var prior, e := lines[..|lines| - 1], lines[|lines| - 1];
      LedgerExactly(prior);
      assert lines == prior + [e];
      forall k | 0 <= k < |prior|
        ensures Continues(lines, k) <==> Continues(prior, k)
      {
        assert lines[..k] == prior[..k];
      }
      if Replay(prior).Some? {
        ReadsExactly(prior, e);
        assert Continues(lines, |prior|) <==> e.seqNo == |prior| + 1 && e.prev == Sha(prior) && Fits(prior, e);
      }
    }
  }
}
