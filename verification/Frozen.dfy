// The ledger position a schedule freezes, and the price a route starts at
// (cmd/percentes-release/ledger.go).
module Frozen {
  import opened Prelude
  import opened Ledger
  import opened LedgerState
  import opened LedgerRuns
  import opened LedgerMeaning

  /** The entries up to a frozen position of n lines hashing to frozenHead; head is
      the hash of all of them. None refuses the ledger. */
  function FrozenEntries(entries: seq<Entry>, head: Digest, n: nat, frozenHead: Digest): Option<seq<Entry>> {
    if n == 0 || |entries| < n then None
    else if (if |entries| > n then entries[n].prev else head) != frozenHead then None
    else Some(entries[..n])
  }

  /** A checked ledger passes exactly when it extends the frozen one, and gives back
      the frozen lines. */
  lemma FrozenExactly(entries: seq<Entry>, frozen: seq<Entry>)
    requires Parse(entries).Some? && frozen != []
    ensures FrozenEntries(entries, Sha(entries), |frozen|, Sha(frozen))
         == if frozen <= entries then Some(frozen) else None
  {
    var n := |frozen|;
    if n < |entries| {
      ReplayChain(entries, n);
      assert entries[n].prev == Sha(entries[..n]);
    } else if n == |entries| {
      assert entries[..n] == entries;
    }
  }

  /** Whatever the processes do after the freeze, a route reads the frozen lines. */
  lemma FrozenThroughRuns(frozen: seq<Entry>, ops: seq<(Op, int)>)
    requires Parse(frozen).Some?
    ensures var later := Run(frozen, ops);
      FrozenEntries(later, Sha(later), |frozen|, Sha(frozen)) == Some(frozen)
  {
    RunParses(frozen, ops);
    FrozenExactly(Run(frozen, ops), frozen);
  }

  // ----- the newest recorded price

  ghost predicate Dated(entries: seq<Entry>) {
    forall k :: 0 <= k < |entries| && entries[k].body.Price? ==> entries[k].body.list.retrieved.Some?
  }

  lemma CheckedIsDated(entries: seq<Entry>)
    requires Replay(entries).Some?
    ensures Dated(entries)
  {
    forall k | 0 <= k < |entries| && entries[k].body.Price?
      ensures entries[k].body.list.retrieved.Some?
    {
      ReplayPrefix(entries, k + 1);
      var upTo := entries[..k + 1];
      LastLine(upTo);
      assert upTo[k] == entries[k];
    }
  }

  /** Entry i is route's price line with the latest retrieval date, the last of equals. */
  ghost predicate Newest(entries: seq<Entry>, route: string, i: nat)
    requires Dated(entries)
  {
    && i < |entries| && PriceLine(entries[i], route)
    && (forall k :: 0 <= k < |entries| && PriceLine(entries[k], route) ==>
         entries[k].body.list.retrieved.value <= entries[i].body.list.retrieved.value)
    && (forall k :: i < k < |entries| && PriceLine(entries[k], route) ==>
         entries[k].body.list.retrieved.value < entries[i].body.list.retrieved.value)
  }

  lemma NewestUnique(entries: seq<Entry>, route: string, i: nat, j: nat)
    requires Dated(entries) && Newest(entries, route, i) && Newest(entries, route, j)
    ensures i == j
  {
  }

  /** Whatever is recorded after the freeze, a route's starting price is the frozen one. */
  lemma StartingPriceKept(frozen: seq<Entry>, ops: seq<(Op, int)>, route: string, i: nat, j: nat)
    requires Parse(frozen).Some?
    ensures var later := Run(frozen, ops);
      var read := FrozenEntries(later, Sha(later), |frozen|, Sha(frozen));
      && read.Some? && Dated(read.value) && Dated(frozen)
      && (Newest(read.value, route, j) && Newest(frozen, route, i) ==>
            j == i && read.value[j].body.list == frozen[i].body.list)
  {
    FrozenThroughRuns(frozen, ops);
    CheckedIsDated(frozen);
    if Newest(frozen, route, i) && Newest(frozen, route, j) {
      NewestUnique(frozen, route, i, j);
    }
  }

  /** Route's newest recorded price; None where it has none. */
  method RoutePrice(entries: seq<Entry>, route: string) returns (best: Option<nat>)
    requires Dated(entries)
    ensures best.None? <==> forall k :: 0 <= k < |entries| ==> !PriceLine(entries[k], route)
    ensures best.Some? ==> Newest(entries, route, best.value)
  {
    best := None;
    for i := 0 to |entries|
      invariant best.None? <==> forall k :: 0 <= k < i ==> !PriceLine(entries[k], route)
      invariant best.Some? ==>
                  && best.value < i && PriceLine(entries[best.value], route)
                  && (forall k :: 0 <= k < i && PriceLine(entries[k], route) ==>
                       entries[k].body.list.retrieved.value <= entries[best.value].body.list.retrieved.value)
                  && (forall k :: best.value < k < i && PriceLine(entries[k], route) ==>
                       entries[k].body.list.retrieved.value < entries[best.value].body.list.retrieved.value)
    {
      var e := entries[i];
      if e.body.Price? && e.body.route == route
        && (best.None? || e.body.list.retrieved.value >= entries[best.value].body.list.retrieved.value)
      {
        best := Some(i);
      }
    }
  }
}
