// Every interleaving of ledger operations leaves a ledger that parses, and
// only ever appends to it.
module LedgerRuns {
  import opened Prelude
  import opened Ledger
  import opened LedgerState

  /** The entry an operation appends is one the replay accepts next. */
  lemma BodyAccepted(lines: seq<Entry>, op: Op, time: int)
    requires Parse(lines).Some?
    requires DraftOf(Parse(lines).value, op).Line? || DraftOf(Parse(lines).value, op).Refusal?
    ensures Apply(Parse(lines).value, Stamp(lines, time, DraftOf(Parse(lines).value, op).body)).Some?
  {
    ReplaySound(lines);
    var st := Parse(lines).value;
    var e := Stamp(lines, time, DraftOf(st, op).body);
    assert e.seqNo != 1 && !e.body.Open?;
    match op
    case Reserve(route, purpose, n, tok, rev) => AdmitAccepted(st, route, purpose, n, tok, rev, e);
    case RecordPrice(route, list) => assert CheckPrice(route, PriceDefaults(st, list)).Some?;
    case _ =>
  }

  lemma AdmitAccepted(st: State, route: string, purpose: Purpose, n: int, tok: Tokens, rev: Option<int>, e: Entry)
    requires CapsSound(st) && st.lines > 0 && e.seqNo != 1
    requires DraftAdmit(st, route, purpose, n, tok, rev).Line? || DraftAdmit(st, route, purpose, n, tok, rev).Refusal?
    requires e.body == DraftAdmit(st, route, purpose, n, tok, rev).body
    ensures Apply(st, e).Some?
  {
  }

  /** An operation appends at most one line, numbered and chained to the lines
      before it, and the ledger still parses. */
  lemma PerformParses(lines: seq<Entry>, op: Op, time: int)
    requires Parse(lines).Some?
    ensures var (after, _) := Perform(lines, op, time);
      && Parse(after).Some?
      && (after == lines || (|after| == |lines| + 1 && after[..|lines|] == lines))
  {
    var st := Parse(lines).value;
    var draft := DraftOf(st, op);
    if draft.Line? || draft.Refusal? {
      BodyAccepted(lines, op, time);
      ReplaySound(lines);
      ReplayAppend(lines, Stamp(lines, time, draft.body));
    }
  }

  lemma CreatedParses(caps: Caps, time: int)
    ensures Parse(Created(caps, time)).Some? <==> ValidCaps(caps)
  {
    var e := Stamp([], time, Open(1, Some(caps)));
    ReplayAppend([], e);
    assert [] + [e] == [e];
  }

  lemma {:induction false} RunParses(lines: seq<Entry>, ops: seq<(Op, int)>)
    requires Parse(lines).Some?
    ensures Parse(Run(lines, ops)).Some? && lines <= Run(lines, ops)
    decreases |ops|
  {
    if ops != [] {
      var before := ops[..|ops| - 1];
      var last := ops[|ops| - 1];
      RunParses(lines, before);
      PerformParses(Run(lines, before), last.0, last.1);
    }
  }

  /** Writer and reader agree: whatever the processes do to a created ledger, in
      any order, it parses, its lines are chained, and only its first opens it. */
  lemma WriterReaderAgreement(caps: Caps, time: int, ops: seq<(Op, int)>)
    requires ValidCaps(caps)
    ensures var lines := Run(Created(caps, time), ops);
      && Parse(lines).Some?
      && lines[..1] == Created(caps, time)
      && (forall k :: 0 <= k < |lines| ==>
           lines[k].seqNo == k + 1 && lines[k].prev == Sha(lines[..k]) && (lines[k].body.Open? <==> k == 0))
  {
    var first := Created(caps, time);
    CreatedParses(caps, time);
    RunParses(first, ops);
    var lines := Run(first, ops);
    forall k | 0 <= k < |lines|
      ensures lines[k].seqNo == k + 1 && lines[k].prev == Sha(lines[..k]) && (lines[k].body.Open? <==> k == 0)
    {
      ReplayChain(lines, k);
    }
  }

  /** A ledger that does not parse admits nothing and is never written again. */
  lemma {:induction false} BrokenStaysBroken(lines: seq<Entry>, ops: seq<(Op, int)>)
    requires Parse(lines).None?
    ensures Run(lines, ops) == lines
    decreases |ops|
  {
    if ops != [] {
      BrokenStaysBroken(lines, ops[..|ops| - 1]);
    }
  }

  /** Runs compose: a process's view continues under the other processes' operations. */
  lemma {:induction false} RunSplit(lines: seq<Entry>, first: seq<(Op, int)>, rest: seq<(Op, int)>)
    ensures Run(lines, first + rest) == Run(Run(lines, first), rest)
    decreases |rest|
  {
    if rest == [] {
      assert first + rest == first;
    } else {
      var n := |rest| - 1;
      assert (first + rest)[..|first| + n] == first + rest[..n];
      RunSplit(lines, first, rest[..n]);
    }
  }
}
