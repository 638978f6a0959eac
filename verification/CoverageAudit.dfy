/** The audit script's own decoder (analysis/audit_pump_amm_coverage.py): a second reading
    of the same transactions, written independently of the collector. */
module CoverageAudit {
  import opened Prelude
  import opened Bytes
  import opened CallTree
  import opened PumpEvents
  import opened Routes
  import opened AmmHandler

  /** One reconstructed trade; fields the script may leave as None are optional. */
  datatype Row = Row(pool: Option<Key>, mint: Option<Key>, quoteMint: Option<Key>, kind: Kind, isCpi: bool,
                     user: Option<Key>, isBuy: bool, token: Option<u64>, quote: Option<u64>, executed: bool)

  /** `name -> is_buy` per instruction discriminator, and each name's event discriminator. */
  function Discriminators(disc: seq<byte>): Option<(string, bool)> {
    var table: map<seq<byte>, (string, bool)> := map[
      [102, 6, 61, 18, 1, 218, 235, 234] := ("buy", true),
      [198, 46, 21, 82, 180, 217, 232, 112] := ("buy_exact_quote_in", true),
      [51, 230, 133, 164, 1, 127, 131, 173] := ("sell", false),
      [105, 68, 6, 175, 0, 7, 35, 162] := ("boost_buy_and_burn", true),
      [184, 23, 238, 97, 103, 197, 211, 61] := ("buy_v2", true),
      [194, 171, 28, 70, 104, 77, 91, 47] := ("buy_exact_quote_in_v2", true),
      [93, 246, 130, 60, 231, 233, 64, 178] := ("sell_v2", false)];
    if disc in table then Some(table[disc]) else None
  }

  function EventDiscriminator(name: string): seq<byte> {
    if name == "sell" || name == "sell_v2" then SELL_EVENT_DISC
    else if name == "boost_buy_and_burn" then BOOST_EVENT_DISC
    else BUY_EVENT_DISC
  }

  predicate ExactIn(name: string) {
    name in {"buy_exact_quote_in", "buy_exact_quote_in_v2", "boost_buy_and_burn"}
  }

  /** `inner_blocks`: a dictionary, so the last block with an index wins. */
  function BlockOf(blocks: seq<Block>, outer: nat): seq<Inner> {
    if blocks == [] then []
    else if blocks[|blocks| - 1].index == outer then blocks[|blocks| - 1].instrs
    else BlockOf(blocks[..|blocks| - 1], outer)
  }

  /** `raw[from:to]`, which Python cuts short at the end of `raw`. */
  function Slice(raw: seq<byte>, from: nat, to: nat): seq<byte>
    requires from <= to
  {
    if |raw| <= from then [] else if |raw| <= to then raw[from..] else raw[from..to]
  }

  /** `raw[8:]` */
  function From8(raw: seq<byte>): seq<byte> {
    if |raw| <= 8 then [] else raw[8..]
  }

  predicate LeavesSubtree(i: Inner, stack: nat) {
    i.height.Some? && i.height.value <= stack
  }

  predicate SkippedCandidate(i: Inner, stack: nat, program: nat) {
    (i.height.Some? && i.height.value != stack + 1) || i.ix.program != program
  }

  // ----- single-pool trades -----

  /** The candidate loop: the first direct-child event with the expected discriminator. */
  function CandidateEvent(s: seq<Inner>, pos: nat, stack: nat, program: nat, disc: seq<byte>): Option<seq<byte>>
    decreases |s| - pos
  {
    if pos >= |s| || LeavesSubtree(s[pos], stack) then None
    else if SkippedCandidate(s[pos], stack, program) || Slice(s[pos].ix.data, 8, 16) != disc
    then CandidateEvent(s, pos + 1, stack, program, disc)
    else Some(From8(s[pos].ix.data))
  }

  function ZeroIfMissing(v: Option<u64>): u64 {
    if v.Some? then v.value else 0
  }

  function EventFields(event: seq<byte>, name: string, isBuy: bool): (Option<u64>, Option<u64>) {
    if name == "boost_buy_and_burn" then (U64At(event, 160), U64At(event, 152))
    else (U64At(event, 16), U64At(event, if isBuy then 112 else 64))
  }

  function SingleRow(tx: Tx, call: Call, stack: nat, name: string, isBuy: bool): Row {
    var arg0, arg1 := ZeroIfMissing(U64At(call.ix.data, 8)), ZeroIfMissing(U64At(call.ix.data, 16));
    var event := if tx.success
                 then CandidateEvent(BlockOf(tx.blocks, call.outer), call.start, stack, call.ix.program,
                                     EventDiscriminator(name))
                 else None;
    var (token, quote) := if event.Some? then EventFields(event.value, name, isBuy) else (None, None);
    var executed := token.Some? && quote.Some?;
    var requested := if ExactIn(name) then (arg1, arg0) else (arg0, arg1);
    Row(ResolveAccount(call.ix, tx.accounts, 0), ResolveAccount(call.ix, tx.accounts, 3),
        ResolveAccount(call.ix, tx.accounts, 4), Single(name), call.start > 0,
        ResolveAccount(call.ix, tx.accounts, 1), isBuy,
        Some(if executed then token.value else requested.0),
        Some(if executed then quote.value else requested.1), executed)
  }

  method InspectSingle(tx: Tx, call: Call, stack: nat, name: string, isBuy: bool) returns (row: Row)
    ensures row == SingleRow(tx, call, stack, name, isBuy)
  {
    var arg0, arg1 := ZeroIfMissing(U64At(call.ix.data, 8)), ZeroIfMissing(U64At(call.ix.data, 16));
    var (tokenAmount, quoteAmount) := if ExactIn(name) then (arg1, arg0) else (arg0, arg1);
    var executed := false;
    if tx.success {
      var expected, s := EventDiscriminator(name), BlockOf(tx.blocks, call.outer);
      ghost var found := CandidateEvent(s, call.start, stack, call.ix.program, expected);
      for pos := if call.start <= |s| then call.start else |s| to |s|
        invariant found == CandidateEvent(s, pos, stack, call.ix.program, expected)
        invariant !executed && (tokenAmount, quoteAmount) == if ExactIn(name) then (arg1, arg0) else (arg0, arg1)
      {
        if LeavesSubtree(s[pos], stack) {
          break;
        }
        if SkippedCandidate(s[pos], stack, call.ix.program) || Slice(s[pos].ix.data, 8, 16) != expected {
          continue;
        }
        var (token, quote) := EventFields(From8(s[pos].ix.data), name, isBuy);
        if token.Some? && quote.Some? {
          tokenAmount, quoteAmount, executed := token.value, quote.value, true;
        }
        break;
      }
    }
    row := Row(ResolveAccount(call.ix, tx.accounts, 0), ResolveAccount(call.ix, tx.accounts, 3),
               ResolveAccount(call.ix, tx.accounts, 4), Single(name), call.start > 0,
               ResolveAccount(call.ix, tx.accounts, 1), isBuy, Some(tokenAmount), Some(quoteAmount), executed);
  }

  // ----- routes -----

  /** `range(16, len(accounts) - 4, 5)`; every account index resolves, or the script raises. */
  function AuditHops(ix: Ix, accounts: seq<seq<byte>>, i: nat): seq<Hop>
    requires Resolvable(ix, accounts)
    decreases |ix.accounts| - i
  {
    if i >= |ix.accounts| - 4 then []
    else
      [Hop(accounts[ix.accounts[i]], accounts[ix.accounts[i + 1]], accounts[ix.accounts[i + 2]])]
      + AuditHops(ix, accounts, i + 5)
  }

  predicate Resolvable(ix: Ix, accounts: seq<seq<byte>>) {
    forall k :: 0 <= k < |ix.accounts| ==> ix.accounts[k] < |accounts| && |accounts[ix.accounts[k]]| == 32
  }

  function HopRow(call: Call, user: Option<Key>, hop: Hop, isBuy: bool, routed: bool,
                  token: Option<u64>, quote: Option<u64>, executed: bool): Row {
    Row(Some(hop.pool), Some(hop.base), Some(hop.quote), if routed then MultiHopRouted else MultiHop,
        call.start > 0, user, isBuy, token, quote, executed)
  }

  /** First hop from `next` on whose pool equals the (possibly cut) bytes read from the event. */
  function MatchHop(hops: seq<Hop>, next: nat, pool: seq<byte>): (r: Option<nat>)
    ensures r.Some? ==> next <= r.value < |hops|
    decreases |hops| - next
  {
    if next >= |hops| then None else if hops[next].pool == pool then Some(next) else MatchHop(hops, next + 1, pool)
  }

  /** The side and pool bytes of a candidate that is a Buy/SellEvent. */
  function CandidateTrade(i: Inner, stack: nat, program: nat): Option<(bool, seq<byte>)> {
    var event := From8(i.ix.data);
    var disc := Slice(event, 0, 8);
    if SkippedCandidate(i, stack, program) || (disc != BUY_EVENT_DISC && disc != SELL_EVENT_DISC) then None
    else Some((disc == BUY_EVENT_DISC, Slice(event, 120, 152)))
  }

  /** `still` says whether the payer's balance of a coin did not move, the script's own test
      for a middle coin. */
  function EventRow(call: Call, user: Option<Key>, hop: Hop, isBuy: bool, still: Key -> bool, event: seq<byte>): Row {
    HopRow(call, user, hop, isBuy, still(hop.base), U64At(event, 16), U64At(event, if isBuy then 112 else 64), true)
  }

  /** The row one candidate gives (if any) and the hop from which the next search resumes. */
  datatype Searched = Searched(rows: seq<Row>, next: nat)

  function SearchCandidate(call: Call, user: Option<Key>, hops: seq<Hop>, i: Inner, stack: nat, next: nat,
                           still: Key -> bool): Searched {
    var trade := CandidateTrade(i, stack, call.ix.program);
    var found := if trade.Some? then MatchHop(hops, next, trade.value.1) else None;
    if found.None? then Searched([], next)
    else Searched([EventRow(call, user, hops[found.value], trade.value.0, still, From8(i.ix.data))], found.value + 1)
  }

  /** The rows of a successful route. */
  function RouteRows(call: Call, user: Option<Key>, hops: seq<Hop>, s: seq<Inner>, pos: nat, stack: nat, next: nat,
                     still: Key -> bool): seq<Row>
    decreases |s| - pos
  {
    if pos >= |s| || LeavesSubtree(s[pos], stack) then []
    else
      var m := SearchCandidate(call, user, hops, s[pos], stack, next, still);
      m.rows + RouteRows(call, user, hops, s, pos + 1, stack, m.next, still)
  }

  /** The rows of a failed route: emitted hop by hop until one does not chain. */
  function FailedRouteRows(call: Call, user: Option<Key>, hops: seq<Hop>, current: Option<Key>, i: nat,
                           amountIn: u64, minOut: u64): seq<Row>
    decreases |hops| - i
  {
    if i >= |hops| || current.None? || Feed(hops[i], current.value).Broken? then []
    else
      var Passed(isBuy, passed) := Feed(hops[i], current.value);
      var amounts := RequestedAt(|hops|, i, isBuy, amountIn, minOut);
      [HopRow(call, user, hops[i], isBuy, IsRouted(hops, hops[i].base, isBuy),
              Some(amounts.token), Some(amounts.quote), false)]
      + FailedRouteRows(call, user, hops, Some(passed), i + 1, amountIn, minOut)
  }

  function MultiHopRows(tx: Tx, call: Call, stack: nat, still: Key -> bool): seq<Row>
    requires Resolvable(call.ix, tx.accounts)
  {
    var hops, user := AuditHops(call.ix, tx.accounts, 16), ResolveAccount(call.ix, tx.accounts, 0);
    if tx.success then RouteRows(call, user, hops, BlockOf(tx.blocks, call.outer), call.start, stack, 0, still)
    else FailedRouteRows(call, user, hops, SpentRowMint(call.ix, tx.preBalances), 0,
                         ZeroIfMissing(U64At(call.ix.data, 8)), ZeroIfMissing(U64At(call.ix.data, 16)))
  }

  method SearchOne(call: Call, user: Option<Key>, hops: seq<Hop>, i: Inner, stack: nat, nextHop: nat,
                   still: Key -> bool)
    returns (rows: seq<Row>, next: nat)
    ensures Searched(rows, next) == SearchCandidate(call, user, hops, i, stack, nextHop, still)
  {
    rows, next := [], nextHop;
    var trade := CandidateTrade(i, stack, call.ix.program);
    if trade.None? {
      return;
    }
    var found := MatchHop(hops, nextHop, trade.value.1);
    if found.None? {
      return;
    }
    next := found.value + 1;
    rows := [EventRow(call, user, hops[found.value], trade.value.0, still, From8(i.ix.data))];
  }

  method InspectRoute(call: Call, user: Option<Key>, hops: seq<Hop>, s: seq<Inner>, stack: nat, still: Key -> bool)
    returns (trades: seq<Row>)
    ensures trades == RouteRows(call, user, hops, s, call.start, stack, 0, still)
  {
    trades := [];
    ghost var all := RouteRows(call, user, hops, s, call.start, stack, 0, still);
    var nextHop := 0;
    for pos := if call.start <= |s| then call.start else |s| to |s|
      invariant all == trades + RouteRows(call, user, hops, s, pos, stack, nextHop, still)
    {
      if LeavesSubtree(s[pos], stack) {
        return;
      }
      var rows;
      rows, nextHop := SearchOne(call, user, hops, s[pos], stack, nextHop, still);
      Assoc(trades, rows, RouteRows(call, user, hops, s, pos + 1, stack, nextHop, still));
      trades := trades + rows;
    }
  }

  method InspectMultiHop(tx: Tx, call: Call, stack: nat, still: Key -> bool) returns (trades: seq<Row>)
    requires Resolvable(call.ix, tx.accounts)
    ensures trades == MultiHopRows(tx, call, stack, still)
  {
    var hops, user := AuditHops(call.ix, tx.accounts, 16), ResolveAccount(call.ix, tx.accounts, 0);
    if tx.success {
      trades := InspectRoute(call, user, hops, BlockOf(tx.blocks, call.outer), stack, still);
    } else {
      trades := InspectFailedRoute(tx, call, hops, user);
    }
  }

  method InspectFailedRoute(tx: Tx, call: Call, hops: seq<Hop>, user: Option<Key>) returns (trades: seq<Row>)
    ensures trades == FailedRouteRows(call, user, hops, SpentRowMint(call.ix, tx.preBalances), 0,
                                      ZeroIfMissing(U64At(call.ix.data, 8)), ZeroIfMissing(U64At(call.ix.data, 16)))
  {
    trades := [];
    var amountIn, minOut := ZeroIfMissing(U64At(call.ix.data, 8)), ZeroIfMissing(U64At(call.ix.data, 16));
    var current := SpentRowMint(call.ix, tx.preBalances);
    ghost var all := FailedRouteRows(call, user, hops, current, 0, amountIn, minOut);
    for i := 0 to |hops|
      invariant all == trades + FailedRouteRows(call, user, hops, current, i, amountIn, minOut)
    {
      if current.None? || Feed(hops[i], current.value).Broken? {
        return;
      }
      var Passed(isBuy, passed) := Feed(hops[i], current.value);
      current := Some(passed);
      var amounts := PlaceRequested(|hops|, i, isBuy, amountIn, minOut);
      var row := HopRow(call, user, hops[i], isBuy, IsRouted(hops, hops[i].base, isBuy),
                        Some(amounts.token), Some(amounts.quote), false);
      Assoc(trades, [row], FailedRouteRows(call, user, hops, current, i + 1, amountIn, minOut));
      trades := trades + [row];
    }
  }

  // ----- the whole transaction -----

  /** What `inspect` appends for one instruction. */
  function InspectRows(tx: Tx, program: nat, call: Call, stack: nat, still: Key -> bool): seq<Row>
    requires Resolvable(call.ix, tx.accounts)
  {
    var disc := Slice(call.ix.data, 0, 8);
    if call.ix.program != program then []
    else if disc == MULTI_HOP_SWAP_DISC then MultiHopRows(tx, call, stack, still)
    else
      var kind := Discriminators(disc);
      if kind.None? then [] else [SingleRow(tx, call, stack, kind.value.0, kind.value.1)]
  }

  method Inspect(tx: Tx, program: nat, call: Call, stack: nat, still: Key -> bool) returns (trades: seq<Row>)
    requires Resolvable(call.ix, tx.accounts)
    ensures trades == InspectRows(tx, program, call, stack, still)
  {
    trades := [];
    if call.ix.program != program {
      return;
    }
    var disc := Slice(call.ix.data, 0, 8);
    if disc == MULTI_HOP_SWAP_DISC {
      trades := InspectMultiHop(tx, call, stack, still);
      return;
    }
    var kind := Discriminators(disc);
    if kind.None? {
      return;
    }
    var row := InspectSingle(tx, call, stack, kind.value.0, kind.value.1);
    return [row];
  }

  ghost predicate AllResolvable(tx: Tx) {
    && (forall i :: 0 <= i < |tx.instrs| ==> Resolvable(tx.instrs[i], tx.accounts))
    && (forall k, j :: 0 <= k < |tx.blocks| && 0 <= j < |tx.blocks[k].instrs| ==>
          Resolvable(tx.blocks[k].instrs[j].ix, tx.accounts))
  }

  /** `instruction.get("stackHeight") or 1`: a missing height and zero both read as 1. */
  function HeightOr1(i: Inner): nat {
    if i.height.None? || i.height.value == 0 then 1 else i.height.value
  }

  /** The script takes a height of zero, which it reads where none is given, for the top level. */
  lemma {:induction false} ZeroIsTopLevel(i: Inner)
    ensures HeightOr1(i) == if i.height in {None, Some(0)} then 1 else i.height.value
  {
  }

  ghost function TopRows(tx: Tx, program: nat, at: nat, still: Key -> bool): seq<Row>
    requires AllResolvable(tx)
    decreases |tx.instrs| - at
  {
    if at >= |tx.instrs| then []
    else InspectRows(tx, program, Call(tx.instrs[at], at, 0), 1, still) + TopRows(tx, program, at + 1, still)
  }

  ghost function BlockRows(tx: Tx, program: nat, k: nat, at: nat, still: Key -> bool): seq<Row>
    requires AllResolvable(tx) && k < |tx.blocks|
    decreases |tx.blocks[k].instrs| - at
  {
    var b := tx.blocks[k];
    if at >= |b.instrs| then []
    else InspectRows(tx, program, Call(b.instrs[at].ix, b.index, at + 1), HeightOr1(b.instrs[at]), still)
         + BlockRows(tx, program, k, at + 1, still)
  }

  ghost function InnerRows(tx: Tx, program: nat, k: nat, still: Key -> bool): seq<Row>
    requires AllResolvable(tx)
    decreases |tx.blocks| - k
  {
    if k >= |tx.blocks| then [] else BlockRows(tx, program, k, 0, still) + InnerRows(tx, program, k + 1, still)
  }

  method TopTrades(tx: Tx, index: nat, still: Key -> bool) returns (trades: seq<Row>)
    requires AllResolvable(tx)
    ensures trades == TopRows(tx, index, 0, still)
  {
    trades := [];
    for i := 0 to |tx.instrs|
      invariant trades + TopRows(tx, index, i, still) == TopRows(tx, index, 0, still)
    {
      var rows := Inspect(tx, index, Call(tx.instrs[i], i, 0), 1, still);
      Assoc(trades, rows, TopRows(tx, index, i + 1, still));
      trades := trades + rows;
    }
  }

  method BlockTrades(tx: Tx, index: nat, k: nat, still: Key -> bool) returns (trades: seq<Row>)
    requires AllResolvable(tx) && k < |tx.blocks|
    ensures trades == BlockRows(tx, index, k, 0, still)
  {
    var b := tx.blocks[k];
    trades := [];
    for j := 0 to |b.instrs|
      invariant trades + BlockRows(tx, index, k, j, still) == BlockRows(tx, index, k, 0, still)
    {
      var rows := Inspect(tx, index, Call(b.instrs[j].ix, b.index, j + 1), HeightOr1(b.instrs[j]), still);
      ghost var rest := BlockRows(tx, index, k, j + 1, still);
      Assoc(trades, rows, rest);
      trades := trades + rows;
    }
  }

  ghost function AuditRows(tx: Tx, program: Key, still: Key -> bool): seq<Row>
    requires AllResolvable(tx) && ProgramIndex(tx.accounts, program).Some?
  {
    var index := ProgramIndex(tx.accounts, program).value;
    TopRows(tx, index, 0, still) + InnerRows(tx, index, 0, still)
  }

  /** `transaction_trades`: the program must be among the keys, as `keys.index` demands. */
  method TransactionTrades(tx: Tx, program: Key, still: Key -> bool) returns (trades: seq<Row>)
    requires AllResolvable(tx) && ProgramIndex(tx.accounts, program).Some?
    ensures trades == AuditRows(tx, program, still)
  {
    var index := ProgramIndex(tx.accounts, program).value;
    trades := TopTrades(tx, index, still);
    ghost var tops := trades;
    for k := 0 to |tx.blocks|
      invariant trades + InnerRows(tx, index, k, still) == tops + InnerRows(tx, index, 0, still)
    {
      var rows := BlockTrades(tx, index, k, still);
      ghost var rest := InnerRows(tx, index, k + 1, still);
      Assoc(trades, rows, rest);
      trades := trades + rows;
    }
  }
}
