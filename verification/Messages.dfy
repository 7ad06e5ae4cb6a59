// The mock's Messages event stream (internal/mock/messages.go): the writer, the
// grammar its events follow, and the reader that gets the pieces back.
module Messages {
  import opened Prelude

  const THINKING := "thinking"
  const SIGNATURE := "mock"

  datatype UsageMode = OnRequest | Always | Never | StartOnly | DeltaOnly

  datatype BlockKind = Text | Thinking

  /** One piece of a stream, under its block's key. */
  datatype Piece = Piece(key: string, text: string)

  function KindOf(key: string): BlockKind { if key == THINKING then Thinking else Text }

  datatype Event =
    | MessageStart(input: Option<int>)
    | BlockStart(index: int, kind: BlockKind)
    | Delta(index: int, kind: BlockKind, text: string)
    | Signature(index: int, signature: string)
    | BlockStop(index: int)
    | MessageDelta(stop: Option<string>, output: Option<nat>)
    | Error(error: string)
    | MessageStop

  /** How a request's stream ends: an in-band error, or a finish, empty for none. */
  datatype Ending = Ending(error: Option<string>, finish: string)

  /** What a stream is written with. */
  datatype Shape = Shape(usage: UsageMode, prompt: int, cut: bool)

  // ----- the writer

  /** What the writer has written and has open. */
  datatype State = State(started: bool, index: nat, open: string, outputTokens: nat, out: seq<Event>) {
    function Put(e: Event): State { this.(out := out + [e]) }

    function Start(s: Shape): State {
      if started then this
      else this.(started := true).Put(Opening(s))
    }

    function CloseBlock(): State {
      if open == "" then this else
      var signed := if open == THINKING then Put(Signature(index, SIGNATURE)) else this;
      signed.(open := "").Put(BlockStop(index)).(index := index + 1)
    }

    function Write(s: Shape, p: Piece): State {
      var begun := Start(s);
      var placed := if p.key == begun.open then begun else
        var closed := begun.CloseBlock();
        closed.(open := p.key).Put(BlockStart(closed.index, KindOf(p.key)));
      placed.(outputTokens := placed.outputTokens + 1).Put(Delta(placed.index, KindOf(p.key), p.text))
    }

    function End(s: Shape, e: Ending): State {
      var closed := Start(s).CloseBlock();
      var ended := closed.Put(Last(s, e, closed.outputTokens));
      if s.cut then ended else ended.Put(MessageStop)
    }
  }

  /** The event that opens a message. */
  function Opening(s: Shape): Event {
    MessageStart(if s.usage.Never? || s.usage.DeltaOnly? then None else Some(s.prompt))
  }

  /** The event that says how a message ended. */
  function Last(s: Shape, e: Ending, tokens: nat): Event {
    if e.error.Some? then Error(e.error.value) else
    MessageDelta(if e.finish == "" then None else Some(e.finish),
                 if s.usage.Never? || s.usage.StartOnly? then None else Some(tokens))
  }

  const NEW := State(false, 0, "", 0, [])

  class MessagesWriter {
    const shape: Shape
    var started: bool
    var index: nat          // of the open block
    var open: string        // key of the open block; empty: none
    var outputTokens: nat
    var out: seq<Event>     // what the response has been sent

    function Model(): State
      reads this
    {
      State(started, index, open, outputTokens, out)
    }

    constructor (s: Shape)
      ensures shape == s && Model() == NEW
    {
      shape := s;
      started, index, open, outputTokens, out := false, 0, "", 0, [];
    }

    method Event(e: Event)
      modifies this`out
      ensures Model() == old(Model()).Put(e)
    {
      out := out + [e];
    }

    method Start()
      modifies this
      ensures Model() == old(Model()).Start(shape)
    {
      if started {
        return;
      }
      started := true;
      Event(MessageStart(if shape.usage.Never? || shape.usage.DeltaOnly? then None else Some(shape.prompt)));
    }

    method CloseBlock()
      modifies this
      ensures Model() == old(Model()).CloseBlock()
    {
      if open == "" {
        return;
      }
      if open == THINKING {
        Event(Signature(index, SIGNATURE));
      }
      open := "";
      Event(BlockStop(index));
      index := index + 1;
    }

    method Write(p: Piece)
      modifies this
      ensures Model() == old(Model()).Write(shape, p)
    {
      Start();
      if p.key != open {
        CloseBlock();
        open := p.key;
        Event(BlockStart(index, KindOf(p.key)));
      }
      outputTokens := outputTokens + 1;
      Event(Delta(index, KindOf(p.key), p.text));
    }

    method End(e: Ending)
      modifies this
      ensures Model() == old(Model()).End(shape, e)
    {
      Start();
      CloseBlock();
      if e.error.Some? {
        Event(Error(e.error.value));
      } else {
        Event(MessageDelta(if e.finish == "" then None else Some(e.finish),
                           if shape.usage.Never? || shape.usage.StartOnly? then None else Some(outputTokens)));
      }
      if !shape.cut {
        Event(MessageStop);
      }
    }
  }

  /** A request's stream: its pieces in order, then its end, once. */
  method Stream(s: Shape, pieces: seq<Piece>, e: Ending) returns (events: seq<Event>)
    ensures events == Written(s, pieces).End(s, e).out
  {
    var w := new MessagesWriter(s);
    for i := 0 to |pieces|
      invariant fresh(w) && w.shape == s && w.Model() == Written(s, pieces[..i])
    {
      assert pieces[..i + 1][..i] == pieces[..i];
      w.Write(pieces[i]);
    }
    assert pieces[..|pieces|] == pieces;
    w.End(e);
    return w.out;
  }

  /** The writer after some pieces. */
  function Written(s: Shape, pieces: seq<Piece>): State {
    if pieces == [] then NEW else Written(s, pieces[..|pieces| - 1]).Write(s, pieces[|pieces| - 1])
  }

  // ----- the grammar

  /** Where a reader of a Messages stream is. */
  datatype Place =
    | Before
    | Between(next: nat)                                             // block next may open
    | Inside(index: nat, kind: BlockKind, filled: bool, signed: bool)
    | Ended                                                          // message_delta or error seen
    | Stopped
    | Bad

  /** One event read: message_start; then blocks numbered from zero, each opened, filled,
      signed if and only if thinking, and closed; then message_delta or error; then message_stop. */
  function Read(g: Place, e: Event): Place {
    match (g, e)
    case (Before, MessageStart(_)) => Between(0)
    case (Between(n), BlockStart(i, k)) => if i == n then Inside(n, k, false, false) else Bad
    case (Inside(n, k, _, signed), Delta(i, d, _)) => if i == n && d == k && !signed then Inside(n, k, true, false) else Bad
    case (Inside(n, k, filled, signed), Signature(i, _)) =>
      if i == n && k.Thinking? && filled && !signed then Inside(n, k, true, true) else Bad
    case (Inside(n, k, filled, signed), BlockStop(i)) =>
      if i == n && filled && (k.Thinking? <==> signed) then Between(n + 1) else Bad
    case (Between(_), MessageDelta(_, _)) => Ended
    case (Between(_), Error(_)) => Ended
    case (Ended, MessageStop) => Stopped
    case _ => Bad
  }

  function ReadAll(events: seq<Event>): Place {
    if events == [] then Before else Read(ReadAll(events[..|events| - 1]), events[|events| - 1])
  }

  /** A whole stream, stopped unless it was cut. */
  predicate WellFormed(events: seq<Event>, cut: bool) { ReadAll(events) == if cut then Ended else Stopped }

  // ----- the reader

  datatype Block = Block(kind: BlockKind, texts: seq<string>)

  function AddText(blocks: seq<Block>, text: string): seq<Block> {
    if blocks == [] then blocks else
    var last := blocks[|blocks| - 1];
    blocks[..|blocks| - 1] + [last.(texts := last.texts + [text])]
  }

  /** The blocks a reader collects. */
  function Blocks(events: seq<Event>): seq<Block> {
    if events == [] then [] else
    var before := Blocks(events[..|events| - 1]);
    match events[|events| - 1]
    case BlockStart(_, k) => before + [Block(k, [])]
    case Delta(_, _, t) => AddText(before, t)
    case _ => before
  }

  /** The runs of pieces under one key, as blocks. */
  function RunsOf(pieces: seq<Piece>): seq<Block> {
    if pieces == [] then [] else
    var before, p := RunsOf(pieces[..|pieces| - 1]), pieces[|pieces| - 1];
    if |pieces| > 1 && pieces[|pieces| - 2].key == p.key then AddText(before, p.text)
    else before + [Block(if p.key == "thinking" then Thinking else Text, [p.text])]
  }

  lemma PutReads(st: State, e: Event)
    ensures ReadAll(st.Put(e).out) == Read(ReadAll(st.out), e)
    ensures Blocks(st.Put(e).out) == match e
              case BlockStart(_, k) => Blocks(st.out) + [Block(k, [])]
              case Delta(_, _, t) => AddText(Blocks(st.out), t)
              case _ => Blocks(st.out)
  {
    assert (st.out + [e])[..|st.out|] == st.out;
  }

  /** The writer's place in the grammar, when every piece so far had a key. */
  ghost predicate InStep(st: State) {
    if !st.started then st == NEW
    else if st.open == "" then ReadAll(st.out) == Between(st.index)
    else ReadAll(st.out) == Inside(st.index, KindOf(st.open), true, false)
  }

  lemma StartSteps(st: State, s: Shape)
    requires InStep(st)
    ensures InStep(st.Start(s)) && st.Start(s).started && st.Start(s).open == st.open
    ensures Blocks(st.Start(s).out) == Blocks(st.out)
  {
    PutReads(st.(started := true), Opening(s));
  }

  lemma CloseSteps(st: State)
    requires InStep(st) && st.started
    ensures ReadAll(st.CloseBlock().out) == Between(st.CloseBlock().index) && Blocks(st.CloseBlock().out) == Blocks(st.out)
  {
    if st.open != "" {
      PutReads(st, Signature(st.index, SIGNATURE));
      var signed := if st.open == THINKING then st.Put(Signature(st.index, SIGNATURE)) else st;
      PutReads(signed.(open := ""), BlockStop(st.index));
    }
  }

  lemma WriteSteps(st: State, s: Shape, p: Piece)
    requires InStep(st) && p.key != ""
    ensures InStep(st.Write(s, p)) && st.Write(s, p).open == p.key
    ensures Blocks(st.Write(s, p).out)
         == if st.open == p.key then AddText(Blocks(st.out), p.text) else Blocks(st.out) + [Block(KindOf(p.key), [p.text])]
  {
    StartSteps(st, s);
    var begun := st.Start(s);
    if p.key == begun.open {
      PutReads(begun.(outputTokens := begun.outputTokens + 1), Delta(begun.index, KindOf(p.key), p.text));
    } else {
      CloseSteps(begun);
      OpenSteps(begun.CloseBlock(), p);
    }
  }

  lemma OpenSteps(closed: State, p: Piece)
    requires ReadAll(closed.out) == Between(closed.index)
    ensures var placed := closed.(open := p.key).Put(BlockStart(closed.index, KindOf(p.key)));
      var filled := placed.(outputTokens := placed.outputTokens + 1).Put(Delta(placed.index, KindOf(p.key), p.text));
      && ReadAll(filled.out) == Inside(closed.index, KindOf(p.key), true, false)
      && Blocks(filled.out) == Blocks(closed.out) + [Block(KindOf(p.key), [p.text])]
  {
    var placed := closed.(open := p.key).Put(BlockStart(closed.index, KindOf(p.key)));
    PutReads(closed.(open := p.key), BlockStart(closed.index, KindOf(p.key)));
    PutReads(placed.(outputTokens := placed.outputTokens + 1), Delta(placed.index, KindOf(p.key), p.text));
    AddFirst(Blocks(closed.out), KindOf(p.key), p.text);
  }

  lemma AddFirst(blocks: seq<Block>, kind: BlockKind, text: string)
    ensures AddText(blocks + [Block(kind, [])], text) == blocks + [Block(kind, [text])]
  {
    var all := blocks + [Block(kind, [])];
    assert all[..|all| - 1] == blocks && all[|all| - 1].texts + [text] == [text];
  }

  lemma LastReads(closed: State, last: Event)
    requires last.Error? || last.MessageDelta?
    ensures ReadAll(closed.Put(last).out) == if ReadAll(closed.out).Between? then Ended else Bad
    ensures Blocks(closed.Put(last).out) == Blocks(closed.out)
  {
    PutReads(closed, last);
  }

  lemma EndReads(st: State, s: Shape, e: Ending)
    requires InStep(st)
    ensures WellFormed(st.End(s, e).out, s.cut) && Blocks(st.End(s, e).out) == Blocks(st.out)
  {
    var begun := st.Start(s);
    StartSteps(st, s);
    CloseSteps(begun);
    FinishReads(begun.CloseBlock(), Last(s, e, begun.CloseBlock().outputTokens));
  }

  lemma FinishReads(closed: State, last: Event)
    requires ReadAll(closed.out).Between? && (last.Error? || last.MessageDelta?)
    ensures var ended := closed.Put(last);
      && ReadAll(ended.out) == Ended && ReadAll(ended.Put(MessageStop).out) == Stopped
      && Blocks(ended.out) == Blocks(ended.Put(MessageStop).out) == Blocks(closed.out)
  {
    LastReads(closed, last);
    PutReads(closed.Put(last), MessageStop);
  }

  ghost predicate Keyed(pieces: seq<Piece>) { forall i :: 0 <= i < |pieces| ==> pieces[i].key != "" }

  lemma {:induction false} WrittenSteps(s: Shape, pieces: seq<Piece>)
    requires Keyed(pieces)
    ensures InStep(Written(s, pieces)) && Blocks(Written(s, pieces).out) == RunsOf(pieces)
    ensures Written(s, pieces).open == if pieces == [] then "" else pieces[|pieces| - 1].key
  {
    if pieces != [] {
      WrittenSteps(s, pieces[..|pieces| - 1]);
      WriteSteps(Written(s, pieces[..|pieces| - 1]), s, pieces[|pieces| - 1]);
    }
  }

  // ----- a piece with no key

  /** A stream that can no longer end well: already bad, or in a block the writer has lost. */
  ghost predicate Stuck(st: State) { st.started && (ReadAll(st.out).Bad? || (st.open == "" && ReadAll(st.out).Inside?)) }

  lemma BadStays(st: State, e: Event)
    requires ReadAll(st.out).Bad?
    ensures ReadAll(st.Put(e).out).Bad?
  {
    PutReads(st, e);
  }

  lemma KeylessSticks(st: State, s: Shape, p: Piece)
    requires InStep(st) && p.key == "" && (st.started ==> st.open != "")
    ensures Stuck(st.Write(s, p))
  {
    StartSteps(st, s);
    var begun := st.Start(s);
    if begun.open == "" {
      PutReads(begun.(outputTokens := begun.outputTokens + 1), Delta(begun.index, KindOf(p.key), p.text));
    } else {
      CloseSteps(begun);
      OpenSteps(begun.CloseBlock(), p);
    }
  }

  lemma WriteStaysStuck(st: State, s: Shape, p: Piece)
    requires Stuck(st)
    ensures Stuck(st.Write(s, p))
  {
    if p.key == st.open {
      PutReads(st.(outputTokens := st.outputTokens + 1), Delta(st.index, KindOf(p.key), p.text));
      if st.open != "" {
        BadStays(st.(outputTokens := st.outputTokens + 1), Delta(st.index, KindOf(p.key), p.text));
      }
    } else {
      StuckCloses(st);
      var closed := st.CloseBlock();
      var placed := closed.(open := p.key).Put(BlockStart(closed.index, KindOf(p.key)));
      PutReads(closed.(open := p.key), BlockStart(closed.index, KindOf(p.key)));
      BadStays(placed.(outputTokens := placed.outputTokens + 1), Delta(placed.index, KindOf(p.key), p.text));
    }
  }

  lemma StuckCloses(st: State)
    requires Stuck(st)
    ensures var g := ReadAll(st.CloseBlock().out); g.Bad? || g.Inside?
    ensures st.open != "" ==> ReadAll(st.CloseBlock().out).Bad?
  {
    if st.open != "" {
      var signed := if st.open == THINKING then st.Put(Signature(st.index, SIGNATURE)) else st;
      BadStays(st, Signature(st.index, SIGNATURE));
      BadStays(signed.(open := ""), BlockStop(st.index));
    }
  }

  lemma StuckEnds(st: State, s: Shape, e: Ending)
    requires Stuck(st)
    ensures ReadAll(st.End(s, e).out).Bad?
  {
    StuckCloses(st);
    var closed := st.Start(s).CloseBlock();
    var last := Last(s, e, closed.outputTokens);
    LastReads(closed, last);
    BadStays(closed.Put(last), MessageStop);
  }

  lemma KeyedMore(pieces: seq<Piece>, p: Piece)
    ensures Keyed(pieces + [p]) <==> Keyed(pieces) && p.key != ""
  {
    assert (pieces + [p])[|pieces|] == p;
    assert forall i :: 0 <= i < |pieces| ==> (pieces + [p])[i] == pieces[i];
  }

  lemma {:induction false} KeylessStream(s: Shape, pieces: seq<Piece>)
    requires !Keyed(pieces)
    ensures Stuck(Written(s, pieces))
  {
    var before, p := pieces[..|pieces| - 1], pieces[|pieces| - 1];
    assert pieces == before + [p];
    KeyedMore(before, p);
    if Keyed(before) {
      WrittenSteps(s, before);
      KeylessSticks(Written(s, before), s, p);
    } else {
      KeylessStream(s, before);
      WriteStaysStuck(Written(s, before), s, p);
    }
  }

  // ----- a request's stream

  function StreamOf(s: Shape, pieces: seq<Piece>, e: Ending): seq<Event> { Written(s, pieces).End(s, e).out }

  /** A stream keeps the grammar exactly when every piece has a key. */
  lemma WellFormedIffKeyed(s: Shape, pieces: seq<Piece>, e: Ending)
    ensures WellFormed(StreamOf(s, pieces, e), s.cut) <==> Keyed(pieces)
  {
    if Keyed(pieces) {
      WrittenSteps(s, pieces);
      EndReads(Written(s, pieces), s, e);
    } else {
      KeylessStream(s, pieces);
      StuckEnds(Written(s, pieces), s, e);
    }
  }

  /** A stream cut short at any event has kept the grammar so far. */
  lemma {:induction false} CutAnywhere(events: seq<Event>, cut: bool, n: nat)
    requires WellFormed(events, cut) && n <= |events|
    ensures !ReadAll(events[..n]).Bad?
    decreases |events| - n
  {
    if n == |events| {
      assert events[..n] == events;
    } else {
      CutAnywhere(events, cut, n + 1);
      assert events[..n + 1][..n] == events[..n];
    }
  }

  function Texts(pieces: seq<Piece>): seq<string> { seq(|pieces|, i requires 0 <= i < |pieces| => pieces[i].text) }

  function Flat(blocks: seq<Block>): seq<string> {
    if blocks == [] then [] else Flat(blocks[..|blocks| - 1]) + blocks[|blocks| - 1].texts
  }

  lemma {:induction false} FlatRuns(pieces: seq<Piece>)
    ensures Flat(RunsOf(pieces)) == Texts(pieces)
    ensures pieces != [] ==> RunsOf(pieces) != [] && RunsOf(pieces)[|RunsOf(pieces)| - 1].kind == KindOf(pieces[|pieces| - 1].key)
  {
    if pieces != [] {
      var before, p, runs := pieces[..|pieces| - 1], pieces[|pieces| - 1], RunsOf(pieces);
      FlatRuns(before);
      assert Texts(pieces) == Texts(before) + [p.text];
      assert before != [] ==> before[|before| - 1] == pieces[|pieces| - 2];
      assert runs[..|runs| - 1] == if |pieces| > 1 && pieces[|pieces| - 2].key == p.key
                                   then RunsOf(before)[..|RunsOf(before)| - 1] else RunsOf(before);
    }
  }

  /** Reading a stream gives back its runs of pieces, block by block, and every text in order. */
  lemma RoundTrip(s: Shape, pieces: seq<Piece>, e: Ending)
    requires Keyed(pieces)
    ensures Blocks(StreamOf(s, pieces, e)) == RunsOf(pieces) && Flat(Blocks(StreamOf(s, pieces, e))) == Texts(pieces)
  {
    WrittenSteps(s, pieces);
    EndReads(Written(s, pieces), s, e);
    FlatRuns(pieces);
  }

  lemma {:induction false} TokensCounted(s: Shape, pieces: seq<Piece>)
    ensures Written(s, pieces).outputTokens == |pieces|
  {
    if pieces != [] {
      TokensCounted(s, pieces[..|pieces| - 1]);
    }
  }

  /** Where usage is reported at the end, it is the number of pieces. */
  lemma UsageIsExact(s: Shape, pieces: seq<Piece>, e: Ending)
    requires e.error.None? && !s.usage.Never? && !s.usage.StartOnly?
    ensures MessageDelta(if e.finish == "" then None else Some(e.finish), Some(|pieces|)) in StreamOf(s, pieces, e)
  {
    TokensCounted(s, pieces);
    var st := Written(s, pieces);
    var closed := st.Start(s).CloseBlock();
    var last := MessageDelta(if e.finish == "" then None else Some(e.finish), Some(closed.outputTokens));
    assert closed.outputTokens == |pieces|;
    assert closed.Put(last).out[|closed.out|] == last;
  }

  /** Nothing is written before the start, and after it a stream opens with one. */
  ghost predicate Opened(st: State, s: Shape) {
    if !st.started then st.out == [] && st.open == ""
    else st.out != [] && st.out[0] == Opening(s) && forall i :: 0 < i < |st.out| ==> !st.out[i].MessageStart?
  }

  lemma CloseKeepsOpening(st: State, s: Shape)
    requires Opened(st, s)
    ensures Opened(st.CloseBlock(), s) && st.CloseBlock().started == st.started
  {
  }

  lemma WriteKeepsOpening(st: State, s: Shape, p: Piece)
    requires Opened(st, s)
    ensures Opened(st.Write(s, p), s) && st.Write(s, p).started
  {
    CloseKeepsOpening(st.Start(s), s);
  }

  lemma {:induction false} WrittenOpens(s: Shape, pieces: seq<Piece>)
    ensures Opened(Written(s, pieces), s)
  {
    if pieces != [] {
      WrittenOpens(s, pieces[..|pieces| - 1]);
      WriteKeepsOpening(Written(s, pieces[..|pieces| - 1]), s, pieces[|pieces| - 1]);
    }
  }

  /** Any stream, whatever its pieces' keys, opens once, with the prompt's usage unless it
      is reported at the end alone or never. */
  lemma StartIsFirst(s: Shape, pieces: seq<Piece>, e: Ending)
    ensures StreamOf(s, pieces, e) != []
    ensures StreamOf(s, pieces, e)[0]
         == MessageStart(if s.usage.OnRequest? || s.usage.Always? || s.usage.StartOnly? then Some(s.prompt) else None)
    ensures forall i :: 0 < i < |StreamOf(s, pieces, e)| ==> !StreamOf(s, pieces, e)[i].MessageStart?
  {
    var begun := Written(s, pieces).Start(s);
    WrittenOpens(s, pieces);
    CloseKeepsOpening(begun, s);
    EndKeepsOpening(begun.CloseBlock(), s, Last(s, e, begun.CloseBlock().outputTokens));
  }

  lemma EndKeepsOpening(closed: State, s: Shape, last: Event)
    requires Opened(closed, s) && closed.started && !last.MessageStart?
    ensures Opened(closed.Put(last), s) && Opened(closed.Put(last).Put(MessageStop), s)
  {
  }

  /** The event that says how a stream ended: its error, or its finish with the usage where the
      mode reports it at the end. */
  ghost function Told(s: Shape, pieces: seq<Piece>, e: Ending): Event {
    match e.error
    case Some(error) => Error(error)
    case None =>
      MessageDelta(if e.finish == "" then None else Some(e.finish),
                   if s.usage.OnRequest? || s.usage.Always? || s.usage.DeltaOnly? then Some(|pieces|) else None)
  }

  predicate Concludes(e: Event) { e.MessageDelta? || e.Error? || e.MessageStop? }

  ghost predicate Unconcluded(out: seq<Event>) { forall i :: 0 <= i < |out| ==> !Concludes(out[i]) }

  lemma CloseConcludesNothing(st: State)
    requires Unconcluded(st.out)
    ensures Unconcluded(st.CloseBlock().out) && st.CloseBlock().outputTokens == st.outputTokens
  {
  }

  lemma StartConcludesNothing(st: State, s: Shape)
    requires Unconcluded(st.out)
    ensures Unconcluded(st.Start(s).out) && st.Start(s).outputTokens == st.outputTokens
  {
  }

  lemma WriteConcludesNothing(st: State, s: Shape, p: Piece)
    requires Unconcluded(st.out)
    ensures Unconcluded(st.Write(s, p).out)
  {
    StartConcludesNothing(st, s);
    CloseConcludesNothing(st.Start(s));
  }

  lemma {:induction false} NothingConcluded(s: Shape, pieces: seq<Piece>)
    ensures Unconcluded(Written(s, pieces).out)
  {
    if pieces != [] {
      NothingConcluded(s, pieces[..|pieces| - 1]);
      WriteConcludesNothing(Written(s, pieces[..|pieces| - 1]), s, pieces[|pieces| - 1]);
    }
  }

  /** Any stream ends as it is told, once: with its error, or its finish and usage; then with
      the stop, unless it is cut. */
  lemma EndsAsTold(s: Shape, pieces: seq<Piece>, e: Ending)
    ensures var out := StreamOf(s, pieces, e);
      var n := if s.cut then |out| - 1 else |out| - 2;
      && n >= 0 && out[n] == Told(s, pieces, e) && (!s.cut ==> out[n + 1] == MessageStop)
      && forall i :: 0 <= i < n ==> !out[i].MessageDelta? && !out[i].Error? && !out[i].MessageStop?
  {
    NothingConcluded(s, pieces);
    TokensCounted(s, pieces);
    StartConcludesNothing(Written(s, pieces), s);
    CloseConcludesNothing(Written(s, pieces).Start(s));
  }
}
