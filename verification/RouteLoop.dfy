// A route's cells over its window (cmd/percentes-release/route.go,
// internal/schedule/schedule.go): the loop that starts them, and what any number
// of crashes and restarts leaves true of its records.
module RouteLoop {
  import opened Prelude

  const MAX_RERUNS := 2
  const START_TOLERANCE := 900 * SECOND

  /** One slot's cell: the start of its attempt 1, and of its attempt 2 where the window holds one. */
  datatype Cell = Cell(name: string, start: int, again: Option<int>)

  datatype Key = Key(name: string, attempt: int)

  datatype Run = Run(name: string, attempt: int, start: int) {
    function Id(): Key { Key(name, attempt) }
  }

  datatype Outcome = Running | Counted | Invalid | Mismatch | Blocked | Stopped | Missed | Interrupted

  type Records = map<Key, Outcome>

  /** Cells in start order, each its own slot: no two runs of a route start together. */
  ghost predicate ValidSchedule(s: seq<Cell>) {
    && (forall i, j :: 0 <= i < j < |s| ==> s[i].name != s[j].name && s[i].start < s[j].start)
    && (forall i, j :: 0 <= i < |s| && 0 <= j < |s| && s[i].again.Some? ==> s[i].again.value != s[j].start)
    && (forall i, j :: 0 <= i < j < |s| && s[i].again.Some? && s[j].again.Some? ==> s[i].again != s[j].again)
  }

  function First(c: Cell): Run { Run(c.name, 1, c.start) }

  predicate Rerunnable(o: Outcome) { o != Counted && o != Running }

  /** A cell's attempt 2, unless the route has taken all its re-runs or the window holds none. */
  function Rerun(s: seq<Cell>, name: string, taken: nat): Option<Run> {
    if taken >= MAX_RERUNS then None else SecondOf(s, name)
  }

  function SecondOf(s: seq<Cell>, name: string): Option<Run> {
    if s == [] then None
    else if s[0].name == name then
      if s[0].again.None? then None else Some(Run(name, 2, s[0].again.value))
    else SecondOf(s[1..], name)
  }

  predicate HasAttempt2(s: seq<Cell>, name: string) { SecondOf(s, name).Some? }

  lemma {:induction false} SecondIs(s: seq<Cell>, i: nat)
    requires i < |s| && forall j, k :: 0 <= j < k < |s| ==> s[j].name != s[k].name
    ensures SecondOf(s, s[i].name)
         == if s[i].again.None? then None else Some(Run(s[i].name, 2, s[i].again.value))
  {
    if i > 0 {
      SecondIs(s[1..], i - 1);
    }
  }

  /** A record left running by an ended process becomes interrupted. */
  function Settle(rec: Records): Records {
    map k | k in rec :: if rec[k].Running? then Interrupted else rec[k]
  }

  /** Cell i's attempt 1 ended without counting, and the window holds its attempt 2. */
  predicate Asks(s: seq<Cell>, rec: Records, i: nat)
    requires i < |s|
  {
    First(s[i]).Id() in rec && Rerunnable(rec[First(s[i]).Id()]) && s[i].again.Some?
  }

  /** The re-runs taken by the first n cells, in their order, while the route has any left. */
  function Taken(s: seq<Cell>, rec: Records, n: nat): (r: seq<Run>)
    requires n <= |s|
    ensures |r| <= MAX_RERUNS
  {
    if n == 0 then [] else
    var before, c := Taken(s, rec, n - 1), s[n - 1];
    if Asks(s, rec, n - 1) && |before| < MAX_RERUNS then before + [Run(c.name, 2, c.again.value)] else before
  }

  function Firsts(s: seq<Cell>): seq<Run> { seq(|s|, i requires 0 <= i < |s| => First(s[i])) }

  function Start(): Run -> int { (r: Run) => r.start }

  /** Every run the route takes, in start order. */
  function Runs(s: seq<Cell>, rec: Records): seq<Run> { Sort(Firsts(s) + Taken(s, rec, |s|), Start()) }

  /** The first run with no record. */
  function Unrecorded(runs: seq<Run>, rec: Records): Option<Run> {
    if runs == [] then None
    else if runs[0].Id() !in rec then Some(runs[0])
    else Unrecorded(runs[1..], rec)
  }

  function Next(s: seq<Cell>, rec: Records): Option<Run> { Unrecorded(Runs(s, rec), rec) }

  /** What the world does to one turn of the loop: the clock, and how far the process gets. */
  datatype Fate =
    | Dies                    // before the run's record is first written
    | StopsWaiting            // told to stop before the run's start
    | DiesInCell              // after the record, before its outcome
    | Fails                   // with an execution error in the cell, recorded as interrupted
    | Ends(outcome: Outcome)  // with an outcome

  datatype Turn = Turn(now: int, fate: Fate)

  /** A run recorded, and when it began unless it was missed. */
  datatype Logged = Logged(run: Run, began: Option<int>)

  datatype Life = Life(records: Records, log: seq<Logged>)

  predicate Late(run: Run, t: Turn) { t.now - run.start > START_TOLERANCE }

  function Later(a: int, b: int): int { if a < b then b else a }

  /** One turn of the loop, from records as any process left them. */
  function Step(s: seq<Cell>, rec: Records, t: Turn): Life {
    var settled := Settle(rec);
    match Next(s, settled)
    case None => Life(settled, [])
    case Some(run) =>
      if t.fate.Dies? then Life(settled, [])
      else if Late(run, t) then Life(settled[run.Id() := Missed], [Logged(run, None)])
      else if t.fate.StopsWaiting? then Life(settled, [])
      else Life(settled[run.Id() := Left(t.fate)], [Logged(run, Some(Later(t.now, run.start)))])
  }

  /** What a run's record is left saying by a turn that began it. */
  function Left(f: Fate): Outcome
    requires f.DiesInCell? || f.Fails? || f.Ends?
  {
    match f
    case DiesInCell => Running
    case Fails => Interrupted
    case Ends(outcome) => outcome
  }

  /** The turns of every process the route ever has, one after another. */
  function Play(s: seq<Cell>, rec: Records, turns: seq<Turn>): Life {
    if turns == [] then Life(rec, []) else
    var before := Play(s, rec, turns[..|turns| - 1]);
    var last := Step(s, before.records, turns[|turns| - 1]);
    Life(last.records, before.log + last.log)
  }

  // ----- the process

  /** How turn i of a process ends it, if it does. */
  ghost function ExitIn(s: seq<Cell>, rec: Records, turns: seq<Turn>, i: nat): Option<Exit>
    requires i < |turns|
  {
    ExitAt(s, Play(s, rec, turns[..i]).records, turns[i])
  }

  /** Of the turns used only the last ends the process, as exit says. */
  ghost predicate EndsBy(s: seq<Cell>, rec: Records, turns: seq<Turn>, used: nat, exit: Option<Exit>)
    requires used <= |turns|
  {
    && (forall i :: 0 <= i < used && (i < used - 1 || exit.None?) ==> ExitIn(s, rec, turns, i).None?)
    && (exit.Some? ==> used > 0 && ExitIn(s, rec, turns, used - 1) == exit)
  }

  lemma TurnMore(s: seq<Cell>, rec: Records, turns: seq<Turn>, used: nat, before: Life, last: Life, exit: Option<Exit>)
    requires used < |turns| && before == Play(s, rec, turns[..used]) && EndsBy(s, rec, turns, used, None)
    requires last == Step(s, before.records, turns[used]) && exit == ExitAt(s, before.records, turns[used])
    ensures Play(s, rec, turns[..used + 1]) == Joined(before, last) && EndsBy(s, rec, turns, used + 1, exit)
  {
    assert turns[..used + 1][..used] == turns[..used];
    assert ExitIn(s, rec, turns, used) == exit;
  }

  /** A process that ran its route out left no run, and every cell's final attempt counted or not as it says. */
  ghost predicate RanOut(s: seq<Cell>, rec: Records, exit: Option<Exit>) {
    exit == Some(AllCounted) || exit == Some(Adverse) ==>
      && Next(s, rec).None?
      && (exit == Some(AllCounted) <==> forall c :: c in s ==> Final(rec, c) == Some(Counted))
  }

  datatype Exit = AllCounted | Adverse | Stopped | Errored | Died

  /** How a turn ends its process, if it does. */
  ghost function ExitAt(s: seq<Cell>, rec: Records, t: Turn): Option<Exit> {
    var settled := Settle(rec);
    if Next(s, settled).None? then
      Some(if forall c :: c in s ==> Final(settled, c) == Some(Counted) then AllCounted else Adverse)
    else if t.fate.Dies? then Some(Died)
    else if Late(Next(s, settled).value, t) then None
    else if t.fate.StopsWaiting? then Some(Exit.Stopped)
    else if t.fate.DiesInCell? then Some(Died)
    else if t.fate.Fails? then Some(Errored)
    else if t.fate.outcome.Stopped? then Some(Exit.Stopped)
    else None
  }

  class Route {
    const cells: seq<Cell>
    var records: Records

    constructor (s: seq<Cell>, rec: Records)
      ensures cells == s && records == rec
    {
      cells, records := s, rec;
    }

    /** Read the records: settle those left running, take the re-runs, and find the first run with no record. */
    method State() returns (next: Option<Run>)
      requires ValidSchedule(cells)
      modifies this
      ensures records == Settle(old(records)) && next == Next(cells, records)
    {
      records := Settle(records);
      var runs, taken: nat := Firsts(cells), 0;
      for i := 0 to |cells|
        invariant records == Settle(old(records))
        invariant taken == |Taken(cells, records, i)| && runs == Firsts(cells) + Taken(cells, records, i)
      {
        var a := First(cells[i]);
        SecondIs(cells, i);
        if a.Id() in records && Rerunnable(records[a.Id()]) && HasAttempt2(cells, a.name) {
          var rr := Rerun(cells, a.name, taken);
          if rr.Some? {
            taken := taken + 1;
            runs := runs + [rr.value];
          }
        }
      }
      runs := Sort(runs, Start());
      next := None;
      var k := 0;
      while k < |runs|
        invariant records == Settle(old(records))
        invariant k <= |runs| && Unrecorded(runs[k..], records) == Next(cells, records)
      {
        if runs[k].Id() !in records {
          return Some(runs[k]);
        }
        assert runs[k..][1..] == runs[k + 1..];
        k := k + 1;
      }
      assert runs[k..] == [];
    }

    /** Write a run's first record; a run already recorded is refused. */
    method WriteNew(run: Run, o: Outcome) returns (ok: bool)
      modifies this
      ensures ok <==> run.Id() !in old(records)
      ensures records == if ok then old(records)[run.Id() := o] else old(records)
    {
      ok := run.Id() !in records;
      if ok {
        records := records[run.Id() := o];
      }
    }

    /** One pass of the loop: the log it leaves, and its exit where it ends the process. */
    method Pass(t: Turn) returns (log: seq<Logged>, exit: Option<Exit>)
      requires ValidSchedule(cells)
      modifies this
      ensures Life(records, log) == Step(cells, old(records), t)
      ensures exit == ExitAt(cells, old(records), t)
      ensures exit == Some(AllCounted) || exit == Some(Adverse) <==> Next(cells, Settle(old(records))).None?
      ensures RanOut(cells, records, exit)
    {
      var next := State();
      if next.None? {
        var counted := Finish();
        return [], Some(if counted then AllCounted else Adverse);
      }
      var run := next.value;
      NextIsNew(cells, records);
      if t.fate.Dies? {
        return [], Some(Died);
      }
      if Late(run, t) {
        var ok := WriteNew(run, Missed);
        return [Logged(run, None)], None;
      }
      if t.fate.StopsWaiting? {
        return [], Some(Exit.Stopped);
      }
      var ok := WriteNew(run, Running);
      log := [Logged(run, Some(Later(t.now, run.start)))];
      if t.fate.DiesInCell? {
        return log, Some(Died);
      }
      if t.fate.Fails? {
        records := records[run.Id() := Interrupted];
        return log, Some(Errored);
      }
      records := records[run.Id() := t.fate.outcome];
      return log, if t.fate.outcome.Stopped? then Some(Exit.Stopped) else None;
    }

    /** Run the cells until none is left, the route stops, or the process fails or dies. */
    method Loop(turns: seq<Turn>) returns (used: nat, exit: Option<Exit>, log: seq<Logged>)
      requires ValidSchedule(cells)
      modifies this
      ensures used <= |turns| && Life(records, log) == Play(cells, old(records), turns[..used])
      ensures exit.None? ==> used == |turns|
      ensures EndsBy(cells, old(records), turns, used, exit) && RanOut(cells, records, exit)
    {
      used, log, exit := 0, [], None;
      while used < |turns| && exit.None?
        invariant used <= |turns| && Life(records, log) == Play(cells, old(records), turns[..used])
        invariant EndsBy(cells, old(records), turns, used, exit) && RanOut(cells, records, exit)
        decreases |turns| - used
      {
        ghost var before := Life(records, log);
        var more;
        more, exit := Pass(turns[used]);
        TurnMore(cells, old(records), turns, used, before, Life(records, more), exit);
        log, used := log + more, used + 1;
      }
    }

    /** Whether every cell's final attempt counted. */
    method Finish() returns (counted: bool)
      ensures counted <==> forall c :: c in cells ==> Final(records, c) == Some(Counted)
      ensures counted <==> forall c :: c in cells ==> CountedOnce(records, c.name)
    {
      counted := true;
      for i := 0 to |cells|
        invariant counted <==> forall c :: c in cells[..i] ==> Final(records, c) == Some(Counted)
      {
        if Final(records, cells[i]) != Some(Counted) {
          counted := false;
        }
        assert cells[..i + 1] == cells[..i] + [cells[i]];
      }
      assert cells[..|cells|] == cells;
    }
  }

  /** An attempt of the cell counted: its first, or where that did not, its second. */
  ghost predicate CountedOnce(rec: Records, name: string) {
    Key(name, 1) in rec && (rec[Key(name, 1)] == Counted || (Key(name, 2) in rec && rec[Key(name, 2)] == Counted))
  }

  /** A cell's final outcome: its attempt 2's where attempt 1 did not count and attempt 2 has a record. */
  function Final(rec: Records, c: Cell): Option<Outcome> {
    var one, two := Key(c.name, 1), Key(c.name, 2);
    if one !in rec then None
    else if rec[one] != Counted && two in rec then Some(rec[two])
    else Some(rec[one])
  }

  lemma {:induction false} UnrecordedIs(runs: seq<Run>, rec: Records)
    ensures match Unrecorded(runs, rec)
            case None => forall r :: r in runs ==> r.Id() in rec
            case Some(u) => u in runs && u.Id() !in rec
  {
    if runs != [] && runs[0].Id() in rec {
      UnrecordedIs(runs[1..], rec);
    }
  }

  /** No run is ever refused for having a record. */
  lemma NextIsNew(s: seq<Cell>, rec: Records)
    ensures Next(s, rec).Some? ==> Next(s, rec).value.Id() !in rec
  {
    UnrecordedIs(Runs(s, rec), rec);
  }

  // ----- what every turn keeps

  /** Exactly the first n cells have attempt 1 records, none of them running but maybe
      the last; and every other record is of a re-run the route has taken. */
  ghost predicate Shaped(s: seq<Cell>, rec: Records, n: nat) {
    && n <= |s|
    && (forall i :: 0 <= i < |s| ==> (First(s[i]).Id() in rec <==> i < n))
    && (forall i :: 0 <= i < n - 1 ==> !rec[First(s[i]).Id()].Running?)
    && (forall k :: k in rec ==> IsFirst(s, k) || IsTaken(s, rec, k))
  }

  ghost predicate IsFirst(s: seq<Cell>, k: Key) { exists i :: 0 <= i < |s| && First(s[i]).Id() == k }

  ghost predicate IsTaken(s: seq<Cell>, rec: Records, k: Key) {
    exists r :: r in Taken(s, rec, |s|) && r.Id() == k
  }

  /** Where only cells from m on ask for more, and asked for nothing before, the taken re-runs only grow. */
  lemma {:induction false} TakenGrows(s: seq<Cell>, rec: Records, now: Records, m: nat, n: nat)
    requires m <= |s| && n <= |s|
    requires forall i :: 0 <= i < m ==> (Asks(s, rec, i) <==> Asks(s, now, i))
    requires forall i :: m <= i < |s| ==> !Asks(s, rec, i)
    ensures n <= m ==> Taken(s, now, n) == Taken(s, rec, n)
    ensures Taken(s, rec, n) <= Taken(s, now, n)
  {
    if n > 0 {
      TakenGrows(s, rec, now, m, n - 1);
    }
  }

  /** What one step leaves: a longer prefix, no record lost, no re-run withdrawn. */
  ghost predicate Follows(s: seq<Cell>, rec: Records, now: Records) {
    && (forall k :: k in rec ==> k in now && (!rec[k].Running? ==> now[k] == rec[k]))
    && Taken(s, rec, |s|) <= Taken(s, now, |s|)
  }

  lemma SettleKeeps(s: seq<Cell>, rec: Records, n: nat)
    requires ValidSchedule(s) && Shaped(s, rec, n)
    ensures Shaped(s, Settle(rec), n) && Follows(s, rec, Settle(rec))
  {
    TakenGrows(s, rec, Settle(rec), if n > 0 && rec[First(s[n - 1]).Id()].Running? then n - 1 else n, |s|);
    KeysKept(s, rec, Settle(rec));
  }

  lemma KeysKept(s: seq<Cell>, rec: Records, now: Records)
    requires Taken(s, rec, |s|) <= Taken(s, now, |s|)
    ensures forall k :: IsTaken(s, rec, k) ==> IsTaken(s, now, k)
  {
    var r, q := Taken(s, rec, |s|), Taken(s, now, |s|);
    assert forall x :: x in r ==> x in q;
  }

  lemma RunsAre(s: seq<Cell>, rec: Records)
    ensures Ascending(Runs(s, rec), Start())
    ensures forall r :: r in Runs(s, rec) <==> r in Firsts(s) || r in Taken(s, rec, |s|)
  {
    var all := Firsts(s) + Taken(s, rec, |s|);
    SortSorts(all, Start());
    forall r
      ensures r in Runs(s, rec) <==> r in Firsts(s) || r in Taken(s, rec, |s|)
    {
      assert r in Runs(s, rec) <==> r in multiset(Runs(s, rec));
      assert r in all <==> r in multiset(all);
    }
  }

  lemma {:induction false} UnrecordedLeast(runs: seq<Run>, rec: Records, r: Run)
    requires Ascending(runs, Start()) && r in runs && r.Id() !in rec
    ensures Unrecorded(runs, rec).Some? && Unrecorded(runs, rec).value.start <= r.start
  {
    if runs[0].Id() in rec {
      UnrecordedLeast(runs[1..], rec, r);
    } else {
      var i :| 0 <= i < |runs| && runs[i] == r;
      assert Start()(runs[0]) <= Start()(runs[i]);
    }
  }

  /** The next run is the first cell's with no attempt 1 record, or a re-run taken. */
  lemma NextIs(s: seq<Cell>, rec: Records, n: nat)
    requires ValidSchedule(s) && Shaped(s, rec, n) && Next(s, rec).Some?
    ensures var run := Next(s, rec).value;
      run.Id() !in rec && ((n < |s| && run == First(s[n])) || (run in Taken(s, rec, |s|) && run.attempt == 2))
  {
    var run := Next(s, rec).value;
    RunsAre(s, rec);
    UnrecordedIs(Runs(s, rec), rec);
    if run in Firsts(s) {
      var i :| 0 <= i < |s| && run == First(s[i]);
      assert First(s[n]) == Firsts(s)[n];
      UnrecordedLeast(Runs(s, rec), rec, First(s[n]));
    } else {
      TakenAre(s, rec, |s|);
    }
  }

  lemma FirstRecorded(s: seq<Cell>, rec: Records, i: nat)
    requires Next(s, rec).None? && i < |s|
    ensures First(s[i]).Id() in rec
  {
    RunsAre(s, rec);
    UnrecordedIs(Runs(s, rec), rec);
    assert Firsts(s)[i] == First(s[i]);
  }

  /** The loop ends when every cell has its attempt 1 and every re-run taken is recorded. */
  lemma NoneIs(s: seq<Cell>, rec: Records, n: nat)
    requires Shaped(s, rec, n) && Next(s, rec).None?
    ensures n == |s| && forall r :: r in Taken(s, rec, |s|) ==> r.Id() in rec
  {
    RunsAre(s, rec);
    UnrecordedIs(Runs(s, rec), rec);
    if n < |s| {
      FirstRecorded(s, rec, n);
    }
  }

  lemma {:induction false} TakenAre(s: seq<Cell>, rec: Records, n: nat)
    requires n <= |s|
    ensures forall r :: r in Taken(s, rec, n) ==> r.attempt == 2
    ensures forall r :: r in Taken(s, rec, n) ==> exists i :: 0 <= i < n && Asks(s, rec, i) && r == Run(s[i].name, 2, s[i].again.value)
  {
    if n > 0 {
      TakenAre(s, rec, n - 1);
    }
  }

  /** A turn keeps the records' shape and everything recorded, and records at most
      one run: one with no record before, begun no sooner than its start and no
      later than the tolerance after it. */
  lemma StepKeeps(s: seq<Cell>, rec: Records, n: nat, t: Turn) returns (m: nat)
    requires ValidSchedule(s) && Shaped(s, rec, n)
    ensures n <= m && Shaped(s, Step(s, rec, t).records, m) && Follows(s, rec, Step(s, rec, t).records)
    ensures Records1(rec, Step(s, rec, t))
  {
    var settled, life := Settle(rec), Step(s, rec, t);
    SettleKeeps(s, rec, n);
    StepIs(s, rec, t);
    if life.log == [] {
      return n;
    }
    var run := life.log[0].run;
    NextIs(s, settled, n);
    m := RecordKeeps(s, settled, n, run, life.records[run.Id()]);
    FollowsOn(s, rec, settled, life.records);
  }

  /** A turn records nothing, or one run with no record before, on time. */
  ghost predicate Records1(rec: Records, life: Life) {
    if life.log == [] then life.records.Keys == rec.Keys
    else |life.log| == 1 && life.log[0].run.Id() !in rec && OnTime(life.log[0])
         && life.records.Keys == rec.Keys + {life.log[0].run.Id()}
  }

  lemma StepIs(s: seq<Cell>, rec: Records, t: Turn)
    ensures var settled, life := Settle(rec), Step(s, rec, t);
      if life.log == [] then life.records == settled
      else |life.log| == 1 && OnTime(life.log[0]) && Next(s, settled) == Some(life.log[0].run)
           && life.log[0].run.Id() in life.records
           && life.records == settled[life.log[0].run.Id() := life.records[life.log[0].run.Id()]]
    ensures Records1(rec, Step(s, rec, t))
  {
    NextIsNew(s, Settle(rec));
    assert Settle(rec).Keys == rec.Keys;
  }

  ghost predicate OnTime(l: Logged) {
    l.began.Some? ==> l.run.start <= l.began.value <= l.run.start + START_TOLERANCE
  }

  lemma FollowsOn(s: seq<Cell>, a: Records, b: Records, c: Records)
    requires Follows(s, a, b) && Follows(s, b, c)
    ensures Follows(s, a, c)
  {
  }

  lemma RecordKeeps(s: seq<Cell>, rec: Records, n: nat, run: Run, o: Outcome) returns (m: nat)
    requires ValidSchedule(s) && Shaped(s, rec, n) && run.Id() !in rec
    requires forall k :: k in rec ==> !rec[k].Running?
    requires (n < |s| && run == First(s[n])) || (run in Taken(s, rec, |s|) && run.attempt == 2)
    ensures n <= m && Shaped(s, rec[run.Id() := o], m) && Follows(s, rec, rec[run.Id() := o])
  {
    var now := rec[run.Id() := o];
    m := if run.attempt == 1 then n + 1 else n;
    TakenGrows(s, rec, now, n, |s|);
    KeysKept(s, rec, now);
    if run.attempt == 1 {
      assert IsFirst(s, run.Id());
    } else {
      assert IsTaken(s, rec, run.Id());
    }
  }

  // ----- over every process the route ever has

  ghost predicate Distinct(log: seq<Logged>) {
    forall i, j :: 0 <= i < j < |log| ==> log[i].run.Id() != log[j].run.Id()
  }

  /** A life from some records: none lost, no re-run withdrawn, and a log of new runs, each once and on time. */
  ghost predicate Kept(s: seq<Cell>, rec: Records, life: Life) {
    && Follows(s, rec, life.records) && Distinct(life.log) && |life.records| == |rec| + |life.log|
    && forall l :: l in life.log ==> l.run.Id() !in rec && l.run.Id() in life.records && OnTime(l)
  }

  lemma KeptMore(s: seq<Cell>, rec: Records, life: Life, last: Life)
    requires Kept(s, rec, life) && Follows(s, life.records, last.records) && Records1(life.records, last)
    ensures Kept(s, rec, Life(last.records, life.log + last.log))
  {
    FollowsOn(s, rec, life.records, last.records);
    KeysSize(life.records);
    KeysSize(last.records);
    if last.log == [] {
      assert life.log + last.log == life.log;
    } else {
      assert last.log == [last.log[0]];
      DistinctMore(life.log, last.log[0]);
    }
  }

  lemma KeysSize(rec: Records)
    ensures |rec| == |rec.Keys|
  {
  }

  lemma DistinctMore(log: seq<Logged>, l: Logged)
    requires Distinct(log) && forall x :: x in log ==> x.run.Id() != l.run.Id()
    ensures Distinct(log + [l])
  {
    forall i, j | 0 <= i < j < |log| + 1
      ensures (log + [l])[i].run.Id() != (log + [l])[j].run.Id()
    {
      assert log[i] in log;
    }
  }

  /** Whatever the crashes and restarts, no cell attempt is ever recorded twice, each
      begins on time, none of what was recorded is lost, and no re-run is withdrawn. */
  lemma {:induction false} PlayKeeps(s: seq<Cell>, rec: Records, n: nat, turns: seq<Turn>) returns (m: nat)
    requires ValidSchedule(s) && Shaped(s, rec, n)
    ensures n <= m && Shaped(s, Play(s, rec, turns).records, m) && Kept(s, rec, Play(s, rec, turns))
    decreases |turns|
  {
    if turns == [] {
      return n;
    }
    var before, t := Play(s, rec, turns[..|turns| - 1]), turns[|turns| - 1];
    m := PlayKeeps(s, rec, n, turns[..|turns| - 1]);
    m := StepKeeps(s, before.records, m, t);
    KeptMore(s, rec, before, Step(s, before.records, t));
  }

  function Joined(a: Life, b: Life): Life { Life(b.records, a.log + b.log) }

  lemma {:induction false} PlaySplit(s: seq<Cell>, rec: Records, turns: seq<Turn>, more: seq<Turn>)
    ensures Play(s, rec, turns + more) == Joined(Play(s, rec, turns), Play(s, Play(s, rec, turns).records, more))
    decreases |more|
  {
    if more == [] {
      assert turns + more == turns;
    } else {
      var most, t := more[..|more| - 1], more[|more| - 1];
      PlaySplit(s, rec, turns, most);
      assert (turns + more)[..|turns + more| - 1] == turns + most && (turns + more)[|turns + more| - 1] == t;
      PlayLast(s, rec, turns + more, turns + most, t);
      PlayLast(s, Play(s, rec, turns).records, more, most, t);
      var was := Play(s, rec, turns);
      var next := Play(s, was.records, most);
      JoinedOn(was, next, Step(s, next.records, t));
    }
  }

  lemma JoinedOn(a: Life, b: Life, c: Life)
    ensures Joined(Joined(a, b), c) == Joined(a, Joined(b, c))
  {
    assert (a.log + b.log) + c.log == a.log + (b.log + c.log);
  }

  lemma PlayLast(s: seq<Cell>, rec: Records, turns: seq<Turn>, most: seq<Turn>, t: Turn)
    requires turns != [] && most == turns[..|turns| - 1] && t == turns[|turns| - 1]
    ensures Play(s, rec, turns) == Joined(Play(s, rec, most), Step(s, Play(s, rec, most).records, t))
  {
  }

  /** What a route has recorded and taken by any point, it keeps to its end. */
  lemma NothingWithdrawn(s: seq<Cell>, turns: seq<Turn>, more: seq<Turn>)
    requires ValidSchedule(s)
    ensures Follows(s, Play(s, map[], turns).records, Play(s, map[], turns + more).records)
  {
    var n := PlayKeeps(s, map[], 0, turns);
    var m := PlayKeeps(s, Play(s, map[], turns).records, n, more);
    PlaySplit(s, map[], turns, more);
  }

  function KeysOf(runs: seq<Run>): (k: set<Key>)
    ensures |k| <= |runs|
  {
    if runs == [] then {} else KeysOf(runs[1..]) + {runs[0].Id()}
  }

  lemma {:induction false} KeysOfHas(runs: seq<Run>, r: Run)
    requires r in runs
    ensures r.Id() in KeysOf(runs)
  {
    if r != runs[0] {
      KeysOfHas(runs[1..], r);
    }
  }

  lemma SubsetSize<T>(a: set<T>, b: set<T>)
    requires a <= b
    ensures |a| <= |b|
  {
    assert b == a + (b - a);
  }

  /** Records are only ever of the cells and the re-runs taken, so of no more runs than those. */
  lemma RecordsBounded(s: seq<Cell>, rec: Records, n: nat)
    requires Shaped(s, rec, n)
    ensures |rec| <= |s| + |Taken(s, rec, |s|)| <= |s| + MAX_RERUNS
  {
    var firsts, taken := KeysOf(Firsts(s)), KeysOf(Taken(s, rec, |s|));
    forall k | k in rec
      ensures k in firsts + taken
    {
      if IsFirst(s, k) {
        var i :| 0 <= i < |s| && First(s[i]).Id() == k;
        assert Firsts(s)[i] == First(s[i]);
        KeysOfHas(Firsts(s), First(s[i]));
      } else {
        var r :| r in Taken(s, rec, |s|) && r.Id() == k;
        KeysOfHas(Taken(s, rec, |s|), r);
      }
    }
    SubsetSize(rec.Keys, firsts + taken);
  }

  /** A route starts each of its cells once and at most two more: over any turns it
      records no more than that, so all but that many turns record nothing. */
  lemma RouteEnds(s: seq<Cell>, turns: seq<Turn>)
    requires ValidSchedule(s)
    ensures var life := Play(s, map[], turns);
      Distinct(life.log) && |life.log| <= |s| + |Taken(s, life.records, |s|)| <= |s| + MAX_RERUNS
  {
    var m := PlayKeeps(s, map[], 0, turns);
    RecordsBounded(s, Play(s, map[], turns).records, m);
  }

  /** Where the loop ends, every cell was run, and every one that did not count was run
      again, unless its window holds no later date or the route's re-runs were used up. */
  lemma Complete(s: seq<Cell>, turns: seq<Turn>, i: nat)
    requires ValidSchedule(s) && i < |s|
    requires Next(s, Settle(Play(s, map[], turns).records)).None?
    ensures var rec := Settle(Play(s, map[], turns).records);
      Final(rec, s[i]).Some? && !Final(rec, s[i]).value.Running?
      && (rec[First(s[i]).Id()].Counted? || s[i].again.None? || Key(s[i].name, 2) in rec
          || |Taken(s, rec, |s|)| == MAX_RERUNS)
  {
    var was := Play(s, map[], turns).records;
    var m := PlayKeeps(s, map[], 0, turns);
    SettleKeeps(s, was, m);
    EveryCellRun(s, Settle(was), m, i);
  }

  lemma EveryCellRun(s: seq<Cell>, rec: Records, n: nat, i: nat)
    requires Shaped(s, rec, n) && i < |s| && Next(s, rec).None? && forall k :: k in rec ==> !rec[k].Running?
    ensures Final(rec, s[i]).Some? && !Final(rec, s[i]).value.Running?
    ensures rec[First(s[i]).Id()].Counted? || s[i].again.None? || Key(s[i].name, 2) in rec || |Taken(s, rec, |s|)| == MAX_RERUNS
  {
    NoneIs(s, rec, n);
    if Asks(s, rec, i) {
      TakenAsked(s, rec, i, |s|);
    }
  }

  lemma {:induction false} TakenAsked(s: seq<Cell>, rec: Records, i: nat, n: nat)
    requires i < n <= |s| && Asks(s, rec, i)
    ensures |Taken(s, rec, n)| == MAX_RERUNS || Run(s[i].name, 2, s[i].again.value) in Taken(s, rec, n)
  {
    if i < n - 1 {
      TakenAsked(s, rec, i, n - 1);
    }
  }

  // ----- what is run again, and what is not

  /** The cell's attempt 1 is recorded, ended, and did not count. */
  ghost predicate FailedOnce(rec: Records, name: string) {
    Key(name, 1) in rec && rec[Key(name, 1)] != Counted && rec[Key(name, 1)] != Running
  }

  lemma TakenFailed(s: seq<Cell>, rec: Records, r: Run)
    requires r in Taken(s, rec, |s|)
    ensures r.attempt == 2 && FailedOnce(rec, r.name)
  {
    TakenAre(s, rec, |s|);
    var i :| 0 <= i < |s| && Asks(s, rec, i) && r == Run(s[i].name, 2, s[i].again.value);
  }

  /** A cell is only ever run again where its first attempt ended without counting: so of every
      record of an attempt 2, and of every next run that is one. */
  lemma OnlyFailedRunAgain(s: seq<Cell>, turns: seq<Turn>, name: string)
    requires ValidSchedule(s)
    ensures var rec := Play(s, map[], turns).records;
      && (Key(name, 2) in rec ==> FailedOnce(rec, name))
      && var next := Next(s, Settle(rec));
         next.Some? && next.value.attempt != 1 ==> next.value.attempt == 2 && FailedOnce(Settle(rec), next.value.name)
  {
    var rec := Play(s, map[], turns).records;
    var n := PlayKeeps(s, map[], 0, turns);
    if Key(name, 2) in rec {
      assert !IsFirst(s, Key(name, 2));
      var r :| r in Taken(s, rec, |s|) && r.Id() == Key(name, 2);
      TakenFailed(s, rec, r);
    }
    if Next(s, Settle(rec)).Some? && Next(s, Settle(rec)).value.attempt != 1 {
      SettleKeeps(s, rec, n);
      NextIs(s, Settle(rec), n);
      TakenFailed(s, Settle(rec), Next(s, Settle(rec)).value);
    }
  }

  /** Every record is of a cell's attempt 1. */
  ghost predicate FirstsOnly(s: seq<Cell>, rec: Records) {
    forall k :: k in rec ==> k.attempt == 1 && exists i :: 0 <= i < |s| && s[i].name == k.name
  }

  ghost predicate FirstsCounted(rec: Records) { forall k :: k in rec && k.attempt == 1 ==> rec[k] == Counted }

  /** Where every recorded attempt 1 counted, no cell was run again, and nothing is left exactly
      when every cell is recorded. */
  lemma NothingRunAgain(s: seq<Cell>, turns: seq<Turn>)
    requires ValidSchedule(s) && FirstsCounted(Play(s, map[], turns).records)
    ensures var rec := Play(s, map[], turns).records;
      FirstsOnly(s, rec) && (Next(s, Settle(rec)).None? <==> forall i :: 0 <= i < |s| ==> Key(s[i].name, 1) in rec)
  {
    var rec := Play(s, map[], turns).records;
    var n := PlayKeeps(s, map[], 0, turns);
    CountedFirsts(s, rec, n);
    SettledAlready(rec);
    NextNone(s, rec, n);
  }

  lemma SettledAlready(rec: Records)
    requires forall k :: k in rec ==> rec[k] == Counted
    ensures Settle(rec) == rec
  {
  }

  lemma CountedFirsts(s: seq<Cell>, rec: Records, n: nat)
    requires ValidSchedule(s) && Shaped(s, rec, n) && FirstsCounted(rec)
    ensures FirstsOnly(s, rec) && forall k :: k in rec ==> rec[k] == Counted
  {
    forall k | k in rec
      ensures k.attempt == 1 && exists i :: 0 <= i < |s| && s[i].name == k.name
    {
      if IsFirst(s, k) {
        var i :| 0 <= i < |s| && First(s[i]).Id() == k;
      } else {
        var r :| r in Taken(s, rec, |s|) && r.Id() == k;
        TakenFailed(s, rec, r);
      }
    }
  }

  lemma NextNone(s: seq<Cell>, rec: Records, n: nat)
    requires ValidSchedule(s) && Shaped(s, rec, n) && forall k :: k in rec ==> rec[k] == Counted
    ensures Next(s, rec).None? <==> forall i :: 0 <= i < |s| ==> Key(s[i].name, 1) in rec
  {
    if Next(s, rec).None? {
      forall i | 0 <= i < |s|
        ensures First(s[i]).Id() in rec
      {
        FirstRecorded(s, rec, i);
      }
    } else {
      NextIs(s, rec, n);
      if Next(s, rec).value in Taken(s, rec, |s|) {
        TakenFailed(s, rec, Next(s, rec).value);
      } else {
        assert First(s[n]).Id() == Key(s[n].name, 1);
      }
    }
  }

  /** How many of the first n cells ended their attempt 1 without counting and have an attempt 2. */
  ghost function Owed(s: seq<Cell>, rec: Records, n: nat): nat
    requires n <= |s|
  {
    if n == 0 then 0 else
    Owed(s, rec, n - 1) + (if FailedOnce(rec, s[n - 1].name) && s[n - 1].again.Some? then 1 else 0)
  }

  lemma {:induction false} TakenCount(s: seq<Cell>, rec: Records, n: nat)
    requires n <= |s|
    ensures |Taken(s, rec, n)| == if Owed(s, rec, n) < 2 then Owed(s, rec, n) else 2
  {
    if n > 0 {
      TakenCount(s, rec, n - 1);
    }
  }

  lemma {:induction false} TakenName(s: seq<Cell>, rec: Records, i: nat, n: nat)
    requires ValidSchedule(s) && i < |s| && n <= |s| && s[i].again.Some?
    ensures Run(s[i].name, 2, s[i].again.value) in Taken(s, rec, n)
       <==> i < n && FailedOnce(rec, s[i].name) && Owed(s, rec, i) < 2
  {
    if n > 0 {
      TakenName(s, rec, i, n - 1);
      TakenCount(s, rec, n - 1);
      assert Asks(s, rec, n - 1) <==> FailedOnce(rec, s[n - 1].name) && s[n - 1].again.Some?;
      var before, c := Taken(s, rec, n - 1), s[n - 1];
      if Asks(s, rec, n - 1) && |before| < MAX_RERUNS {
        assert Taken(s, rec, n) == before + [Run(c.name, 2, c.again.value)];
      }
    }
  }

  /** A route takes the re-runs of its first two cells, in their order, that ended without
      counting and have a later date, and no other. */
  lemma RerunsExactly(s: seq<Cell>, rec: Records, i: nat)
    requires ValidSchedule(s) && i < |s| && s[i].again.Some?
    ensures Run(s[i].name, 2, s[i].again.value) in Taken(s, rec, |s|) <==> FailedOnce(rec, s[i].name) && Owed(s, rec, i) < 2
  {
    TakenName(s, rec, i, |s|);
  }

  /** The next run is the earliest that has no record: of the cells, and of the re-runs taken. */
  lemma NextIsEarliest(s: seq<Cell>, rec: Records, r: Run)
    requires r.Id() !in rec && ((exists i :: 0 <= i < |s| && r == Run(s[i].name, 1, s[i].start)) || r in Taken(s, rec, |s|))
    ensures Next(s, rec).Some? && Next(s, rec).value.start <= r.start
  {
    RunsAre(s, rec);
    if r !in Taken(s, rec, |s|) {
      var i :| 0 <= i < |s| && r == Run(s[i].name, 1, s[i].start);
      assert Firsts(s)[i] == r;
    }
    UnrecordedLeast(Runs(s, rec), rec, r);
  }

  /** What one turn writes: a run left running becomes interrupted; the next run is missed where
      more than fifteen minutes late, and otherwise begins, no sooner than its start, and is
      recorded as the turn left it. */
  lemma TurnExactly(s: seq<Cell>, rec: Records, t: Turn)
    ensures var now := Step(s, rec, t).records;
      var next := Next(s, Settle(rec));
      && (forall k :: k in Settle(rec) <==> k in rec)
      && (forall k :: k in rec ==> Settle(rec)[k] == if rec[k] == Running then Interrupted else rec[k])
      && (next.None? || t.fate.Dies? ==> now == Settle(rec))
      && (next.Some? && !t.fate.Dies? ==>
            var run := next.value;
            if t.now > run.start + 900_000_000_000 then
              now == Settle(rec)[run.Id() := Missed] && Step(s, rec, t).log == [Logged(run, None)]
            else if t.fate.StopsWaiting? then now == Settle(rec)
            else
              && now == Settle(rec)[run.Id() := if t.fate.DiesInCell? then Running
                                                else if t.fate.Fails? then Interrupted else t.fate.outcome]
              && Step(s, rec, t).log == [Logged(run, Some(if t.now < run.start then run.start else t.now))])
  {
  }
}
