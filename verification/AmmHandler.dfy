/** The PumpSwap handler: which instructions become trade records, and with what amounts
    (src/handler/amm_handler.rs, get_program_instructions in src/utils/transaction.rs). */
module AmmHandler {
  import opened Prelude
  import opened Bytes
  import opened CallTree
  import opened PumpEvents
  import opened Routes

  const MULTI_HOP_SWAP_DISC: seq<byte> := [43, 100, 73, 19, 233, 246, 111, 148]
  const POOL_POS: nat := 0
  const TRADE_USER_POS: nat := 1
  const MINT_POS: nat := 3
  const QUOTE_MINT_POS: nat := 4

  /** One transaction as delivered: resolved account list, top-level instructions, inner
      instruction blocks, outcome and pre-execution token balances. */
  datatype Tx = Tx(accounts: seq<seq<byte>>, instrs: seq<Ix>, blocks: seq<Block>, success: bool,
                   preBalances: seq<BalanceRow>)

  /** What the handler is configured with; `canonical` derives the migration pool of a pair. */
  datatype Context = Context(program: Key, wsol: Key, usdc: Key, readonly: bool, whitelist: set<Key>,
                             canonical: (Key, Key) -> Key)

  datatype QuoteCurrency = Sol | Usdc | Other

  function BaseUnit(c: QuoteCurrency): (r: real)
    ensures r > 0.0
  {
    match c
    case Sol => 1000000000.0
    case Usdc => 1000000.0
    case Other => 1.0
  }

  /** Executed amounts name the inner instruction they were read from. */
  datatype Source = FromEvent(outer: nat, pos: nat) | InstructionRequest

  datatype Amounts = Amounts(token: u64, quote: u64, marketCap: Option<u64>, baseReserves: u64, quoteReserves: u64)

  datatype Kind = Single(name: string) | MultiHop | MultiHopRouted

  datatype Fill = Fill(pool: Key, mint: Key, quoteMint: Key, kind: Kind, isCpi: bool, user: Option<Key>,
                       isBuy: bool, amounts: Amounts, source: Source)

  datatype Record = Record(ixIndex: nat, fill: Fill, success: bool)

  /** An instruction of the program: (instr, parent_outer_idx, start_inner_pos). */
  datatype Call = Call(ix: Ix, outer: nat, start: nat)

  // ----- collecting the program's instructions -----

  function ProgramIndex(accounts: seq<seq<byte>>, program: Key): Option<nat> {
    if accounts == [] then None
    else if accounts[0] == program then Some(0)
    else
      var r := ProgramIndex(accounts[1..], program);
      if r.Some? then Some(r.value + 1) else None
  }

  function TopCalls(instrs: seq<Ix>, at: nat, program: nat): seq<Call>
    decreases |instrs| - at
  {
    if at >= |instrs| then []
    else (if instrs[at].program == program then [Call(instrs[at], at, 0)] else []) + TopCalls(instrs, at + 1, program)
  }

  function BlockCalls(b: Block, at: nat, program: nat): seq<Call>
    decreases |b.instrs| - at
  {
    if at >= |b.instrs| then []
    else (if b.instrs[at].ix.program == program then [Call(b.instrs[at].ix, b.index, at + 1)] else [])
         + BlockCalls(b, at + 1, program)
  }

  function InnerCalls(blocks: seq<Block>, at: nat, program: nat): seq<Call>
    decreases |blocks| - at
  {
    if at >= |blocks| then [] else BlockCalls(blocks[at], 0, program) + InnerCalls(blocks, at + 1, program)
  }

  function ProgramCalls(tx: Tx, program: Key): seq<Call> {
    var index := ProgramIndex(tx.accounts, program);
    if index.None? then [] else TopCalls(tx.instrs, 0, index.value) + InnerCalls(tx.blocks, 0, index.value)
  }

  method GetProgramInstructions(tx: Tx, program: Key) returns (all: seq<Call>)
    ensures all == ProgramCalls(tx, program)
  {
    all := [];
    var index := ProgramIndex(tx.accounts, program);
    if index.Some? {
      for i := 0 to |tx.instrs|
        invariant all + TopCalls(tx.instrs, i, index.value) == TopCalls(tx.instrs, 0, index.value)
      {
        if tx.instrs[i].program == index.value {
          all := all + [Call(tx.instrs[i], i, 0)];
        }
      }
      ghost var tops := all;
      for k := 0 to |tx.blocks|
        invariant all + InnerCalls(tx.blocks, k, index.value) == tops + InnerCalls(tx.blocks, 0, index.value)
      {
        var inner := tx.blocks[k];
        ghost var before := all;
        for j := 0 to |inner.instrs|
          invariant all + BlockCalls(inner, j, index.value) == before + BlockCalls(inner, 0, index.value)
        {
          if inner.instrs[j].ix.program == index.value {
            all := all + [Call(inner.instrs[j].ix, inner.index, j + 1)];
          }
        }
        assert all == before + BlockCalls(inner, 0, index.value);
      }
      assert all == tops + InnerCalls(tx.blocks, 0, index.value);
    }
  }

  // ----- filters and amounts -----

  function Eligible(ctx: Context, pool: Key, base: Key, quote: Key): Option<QuoteCurrency> {
    if base == ctx.wsol then None
    else if !ctx.readonly && base !in ctx.whitelist then None
    else if pool != ctx.canonical(base, quote) then None
    else Some(if quote == ctx.wsol then Sol else if quote == ctx.usdc then Usdc else Other)
  }

  function EventAmounts(data: seq<byte>, disc: seq<byte>, isBuy: bool, currency: QuoteCurrency): Option<Amounts> {
    if disc == BOOST_EVENT_DISC then
      var e := ExtractBoostBuyEvent(data);
      if e.None? then None
      else
        var v := e.value;
        Some(Amounts(v.baseBurned, v.quoteUsed,
                     Some(MarketCapFromReserves(v.baseAfter, v.effectiveQuote, BaseUnit(currency))),
                     v.baseAfter, v.effectiveQuote))
    else
      var (base, rawQuote) := PoolReserves(data);
      var (buyVolume, sellVolume) := QuoteVolume(data);
      var volume := if isBuy then buyVolume else sellVolume;
      var token := TransactionAmount(data);
      if volume.None? || token.None? || base.None? || rawQuote.None? then None
      else
        var quote := EffectiveQuoteReserves(rawQuote.value, VirtualQuoteReserves(data, isBuy));
        Some(Amounts(token.value, volume.value,
                     Some(MarketCapFromReserves(base.value, quote, BaseUnit(currency))), base.value, quote))
  }

  /** Requested (token, quote) of a single-pool trade; exact-in args come quote first. */
  function RequestedAmounts(data: seq<byte>, exactIn: bool): (u64, u64) {
    if |data| < 24 then (0, 0)
    else
      var arg0, arg1 := U64At(data, 8).value, U64At(data, 16).value;
      if exactIn then (arg1, arg0) else (arg0, arg1)
  }

  // ----- single-pool trades -----

  datatype TradeIx = TradeIx(name: string, isBuy: bool, exactIn: bool, eventDisc: seq<byte>)

  function PumpSwapTradeIx(disc: seq<byte>): Option<TradeIx> {
    if disc == [102, 6, 61, 18, 1, 218, 235, 234] then Some(TradeIx("buy", true, false, BUY_EVENT_DISC))
    else if disc == [198, 46, 21, 82, 180, 217, 232, 112] then
      Some(TradeIx("buy_exact_quote_in", true, true, BUY_EVENT_DISC))
    else if disc == [51, 230, 133, 164, 1, 127, 131, 173] then Some(TradeIx("sell", false, false, SELL_EVENT_DISC))
    else if disc == [184, 23, 238, 97, 103, 197, 211, 61] then Some(TradeIx("buy_v2", true, false, BUY_EVENT_DISC))
    else if disc == [194, 171, 28, 70, 104, 77, 91, 47] then
      Some(TradeIx("buy_exact_quote_in_v2", true, true, BUY_EVENT_DISC))
    else if disc == [93, 246, 130, 60, 231, 233, 64, 178] then Some(TradeIx("sell_v2", false, false, SELL_EVENT_DISC))
    else if disc == [105, 68, 6, 175, 0, 7, 35, 162] then
      Some(TradeIx("boost_buy_and_burn", true, true, BOOST_EVENT_DISC))
    else None
  }

  function FindEvent(events: seq<Emitted>, disc: seq<byte>): (r: Option<Emitted>)
    ensures r.Some? ==> r.value in events
  {
    if events == [] then None
    else if events[0].data[..8] == disc then Some(events[0])
    else FindEvent(events[1..], disc)
  }

  /** The call's events on a successful transaction; a failed one has none to read. */
  function EventsOfCall(tx: Tx, call: Call): seq<Emitted> {
    DirectChildEvents(tx.blocks, call.outer, call.start, call.ix.program)
  }

  datatype Executed = Executed(amounts: Amounts, source: Source)

  function ExecutedAmounts(tx: Tx, call: Call, kind: TradeIx, currency: QuoteCurrency): Executed {
    var event := if tx.success then FindEvent(EventsOfCall(tx, call), kind.eventDisc) else None;
    var amounts := if event.Some? then EventAmounts(event.value.data, kind.eventDisc, kind.isBuy, currency) else None;
    if amounts.Some? then Executed(amounts.value, FromEvent(call.outer, event.value.pos))
    else
      var (token, quote) := RequestedAmounts(call.ix.data, kind.exactIn);
      Executed(Amounts(token, quote, None, 0, 0), InstructionRequest)
  }

  function SingleFills(ctx: Context, tx: Tx, call: Call, kind: TradeIx): seq<Fill> {
    var mint := ResolveAccount(call.ix, tx.accounts, MINT_POS);
    var quoteMint := ResolveAccount(call.ix, tx.accounts, QUOTE_MINT_POS);
    var pool := ResolveAccount(call.ix, tx.accounts, POOL_POS);
    if mint.None? || quoteMint.None? || pool.None? then []
    else
      var currency := Eligible(ctx, pool.value, mint.value, quoteMint.value);
      if currency.None? then []
      else
        var executed := ExecutedAmounts(tx, call, kind, currency.value);
        [Fill(pool.value, mint.value, quoteMint.value, Single(kind.name), call.start > 0,
              ResolveAccount(call.ix, tx.accounts, TRADE_USER_POS), kind.isBuy, executed.amounts, executed.source)]
  }

  // ----- routes -----

  /** What every fill of one `multi_hop_swap` shares. */
  datatype Route = Route(hops: seq<Hop>, outer: nat, isCpi: bool, user: Option<Key>)

  function RouteOf(tx: Tx, call: Call): Route {
    Route(SwapHops(call.ix, tx.accounts), call.outer, call.start > 0, ResolveAccount(call.ix, tx.accounts, USER_POS))
  }

  function HopFill(r: Route, hop: Hop, isBuy: bool, amounts: Amounts, source: Source): Fill {
    Fill(hop.pool, hop.base, hop.quote, if IsRouted(r.hops, hop.base, isBuy) then MultiHopRouted else MultiHop,
         r.isCpi, r.user, isBuy, amounts, source)
  }

  /** First hop from `next` on that trades `pool`; the number of hops when there is none. */
  function FindHop(hops: seq<Hop>, next: nat, pool: Key): (i: nat)
    requires next <= |hops|
    ensures next <= i <= |hops|
    ensures i < |hops| ==> hops[i].pool == pool
    ensures forall k :: next <= k < i ==> hops[k].pool != pool
    decreases |hops| - next
  {
    if next == |hops| || hops[next].pool == pool then next else FindHop(hops, next + 1, pool)
  }

  /** The side and pool of a Buy/SellEvent; None for any other event or a truncated one. */
  function TradeOf(data: Payload): Option<(bool, Key)> {
    var isBuy, isSell := data[..8] == BUY_EVENT_DISC, data[..8] == SELL_EVENT_DISC;
    var pool := EventPool(data);
    if (isBuy || isSell) && pool.Some? then Some((isBuy, pool.value)) else None
  }

  function FillOfEvent(ctx: Context, r: Route, hop: Hop, isBuy: bool, e: Emitted): seq<Fill> {
    var currency := Eligible(ctx, hop.pool, hop.base, hop.quote);
    if currency.None? then []
    else
      var amounts := EventAmounts(e.data, e.data[..8], isBuy, currency.value);
      if amounts.None? then [] else [HopFill(r, hop, isBuy, amounts.value, FromEvent(r.outer, e.pos))]
  }

  /** The fill one event gives (if any) and the hop from which the next search resumes. */
  datatype Matched = Matched(fills: seq<Fill>, next: nat)

  function MatchEvent(ctx: Context, r: Route, next: nat, e: Emitted): (m: Matched)
    requires next <= |r.hops|
    ensures next <= m.next <= |r.hops|
  {
    var trade := TradeOf(e.data);
    var i := if trade.Some? then FindHop(r.hops, next, trade.value.1) else |r.hops|;
    if i == |r.hops| then Matched([], next) else Matched(FillOfEvent(ctx, r, r.hops[i], trade.value.0, e), i + 1)
  }

  /** Events matched to hops greedily, each search resuming after the previous match. */
  function SuccessFills(ctx: Context, r: Route, next: nat, events: seq<Emitted>): seq<Fill>
    requires next <= |r.hops|
    decreases events
  {
    if events == [] then []
    else
      var m := MatchEvent(ctx, r, next, events[0]);
      m.fills + SuccessFills(ctx, r, m.next, events[1..])
  }

  /** Requested amounts of hop `i`: the spent amount on the first hop's input side, the
      minimum received on the last hop's output side. */
  function RequestedAt(hops: nat, i: nat, isBuy: bool, amountIn: u64, minOut: u64): Amounts {
    var first, last := i == 0, i + 1 == hops;
    Amounts(if first && !isBuy then amountIn else if last && isBuy then minOut else 0,
            if first && isBuy then amountIn else if last && !isBuy then minOut else 0, None, 0, 0)
  }

  function FailedFill(ctx: Context, r: Route, i: nat, isBuy: bool, amountIn: u64, minOut: u64): seq<Fill>
    requires i < |r.hops|
  {
    var hop := r.hops[i];
    if Eligible(ctx, hop.pool, hop.base, hop.quote).None? then []
    else [HopFill(r, hop, isBuy, RequestedAt(|r.hops|, i, isBuy, amountIn, minOut), InstructionRequest)]
  }

  function FailedFills(ctx: Context, r: Route, sides: seq<bool>, i: nat, amountIn: u64, minOut: u64): seq<Fill>
    requires |sides| == |r.hops|
    decreases |r.hops| - i
  {
    if i >= |r.hops| then []
    else FailedFill(ctx, r, i, sides[i], amountIn, minOut) + FailedFills(ctx, r, sides, i + 1, amountIn, minOut)
  }

  function MultiHopFills(ctx: Context, tx: Tx, call: Call): seq<Fill> {
    var r := RouteOf(tx, call);
    if tx.success then SuccessFills(ctx, r, 0, EventsOfCall(tx, call))
    else
      var input := InputMint(call.ix, tx.preBalances, r.hops);
      var sides := if input.Some? then Sides(r.hops, input.value) else None;
      if sides.None? then []
      else
        var (amountIn, minOut) := RequestedAmounts(call.ix.data, false);
        FailedFills(ctx, r, sides.value, 0, amountIn, minOut)
  }

  /** One turn of the success loop: skips what is not a pool trade of the remaining hops. */
  method MatchOne(ctx: Context, r: Route, nextHop: nat, e: Emitted) returns (fills: seq<Fill>, next: nat)
    requires nextHop <= |r.hops|
    ensures Matched(fills, next) == MatchEvent(ctx, r, nextHop, e)
  {
    fills, next := [], nextHop;
    var trade := TradeOf(e.data);
    if trade.None? {
      return;
    }
    var found := FindHop(r.hops, nextHop, trade.value.1);
    if found == |r.hops| {
      return;
    }
    next := found + 1;
    fills := FillOfEvent(ctx, r, r.hops[found], trade.value.0, e);
  }

  /** The success loop of `multi_hop_fills`: `nextHop` only moves forward and never passes the end. */
  method MatchEvents(ctx: Context, r: Route, events: seq<Emitted>) returns (fills: seq<Fill>)
    ensures fills == SuccessFills(ctx, r, 0, events)
  {
    fills := [];
    var nextHop := 0;
    for k := 0 to |events|
      invariant 0 <= nextHop <= |r.hops|
      invariant fills + SuccessFills(ctx, r, nextHop, events[k..]) == SuccessFills(ctx, r, 0, events)
    {
      assert events[k..][0] == events[k] && events[k..][1..] == events[k + 1..];
      var more;
      more, nextHop := MatchOne(ctx, r, nextHop, events[k]);
      Assoc(fills, more, SuccessFills(ctx, r, nextHop, events[k + 1..]));
      fills := fills + more;
    }
  }

  /** Both requested amounts may land on the same hop. */
  method PlaceRequested(hops: nat, i: nat, isBuy: bool, amountIn: u64, minOut: u64) returns (amounts: Amounts)
    requires i < hops
    ensures amounts == RequestedAt(hops, i, isBuy, amountIn, minOut)
  {
    var tokenAmount: u64, quoteVolume: u64 := 0, 0;
    if i == 0 {
      if isBuy { quoteVolume := amountIn; } else { tokenAmount := amountIn; }
    }
    if i == hops - 1 {
      if isBuy { tokenAmount := minOut; } else { quoteVolume := minOut; }
    }
    return Amounts(tokenAmount, quoteVolume, None, 0, 0);
  }

  method RequestOne(ctx: Context, r: Route, i: nat, isBuy: bool, amountIn: u64, minOut: u64) returns (fills: seq<Fill>)
    requires i < |r.hops|
    ensures fills == FailedFill(ctx, r, i, isBuy, amountIn, minOut)
  {
    var hop := r.hops[i];
    var currency := Eligible(ctx, hop.pool, hop.base, hop.quote);
    if currency.None? {
      return [];
    }
    var amounts := PlaceRequested(|r.hops|, i, isBuy, amountIn, minOut);
    return [HopFill(r, hop, isBuy, amounts, InstructionRequest)];
  }

  method RequestFills(ctx: Context, r: Route, sides: seq<bool>, amountIn: u64, minOut: u64) returns (fills: seq<Fill>)
    requires |sides| == |r.hops|
    ensures fills == FailedFills(ctx, r, sides, 0, amountIn, minOut)
  {
    fills := [];
    for i := 0 to |r.hops|
      invariant FailedFills(ctx, r, sides, 0, amountIn, minOut)
             == fills + FailedFills(ctx, r, sides, i, amountIn, minOut)
    {
      var more := RequestOne(ctx, r, i, sides[i], amountIn, minOut);
      Assoc(fills, more, FailedFills(ctx, r, sides, i + 1, amountIn, minOut));
      fills := fills + more;
    }
  }

  method ComputeMultiHopFills(ctx: Context, tx: Tx, call: Call) returns (fills: seq<Fill>)
    ensures fills == MultiHopFills(ctx, tx, call)
  {
    var r := RouteOf(tx, call);
    if tx.success {
      fills := MatchEvents(ctx, r, EventsOfCall(tx, call));
      return;
    }
    var input := InputMint(call.ix, tx.preBalances, r.hops);
    if input.None? {
      return [];
    }
    var sides := MultiHopSides(r.hops, input.value);
    if sides.None? {
      return [];
    }
    var (amountIn, minOut) := RequestedAmounts(call.ix.data, false);
    fills := RequestFills(ctx, r, sides.value, amountIn, minOut);
  }

  // ----- the record loop -----

  function FillsOfCall(ctx: Context, tx: Tx, call: Call): seq<Fill> {
    if |call.ix.data| < 8 then []
    else if call.ix.data[..8] == MULTI_HOP_SWAP_DISC then MultiHopFills(ctx, tx, call)
    else
      var kind := PumpSwapTradeIx(call.ix.data[..8]);
      if kind.None? then [] else SingleFills(ctx, tx, call, kind.value)
  }

  function FillsOfCalls(ctx: Context, tx: Tx, calls: seq<Call>): seq<Fill> {
    if calls == [] then [] else FillsOfCall(ctx, tx, calls[0]) + FillsOfCalls(ctx, tx, calls[1..])
  }

  function Fills(ctx: Context, tx: Tx): seq<Fill> {
    FillsOfCalls(ctx, tx, ProgramCalls(tx, ctx.program))
  }

  ghost predicate Numbered(records: seq<Record>, fills: seq<Fill>, success: bool) {
    |records| == |fills| && forall i :: 0 <= i < |fills| ==> records[i] == Record(i, fills[i], success)
  }

  /** One instruction's contribution: its fills, appended under consecutive indexes. */
  method EmitFills(records: seq<Record>, ghost done: seq<Fill>, fills: seq<Fill>, success: bool)
    returns (r: seq<Record>, tradeIndex: nat)
    requires Numbered(records, done, success)
    ensures Numbered(r, done + fills, success) && tradeIndex == |r|
  {
    r, tradeIndex := records, |records|;
    for f := 0 to |fills|
      invariant tradeIndex == |r| == |done| + f
      invariant forall i :: 0 <= i < |r| ==> r[i] == Record(i, (done + fills)[i], success)
    {
      r := r + [Record(tradeIndex, fills[f], success)];
      tradeIndex := tradeIndex + 1;
    }
  }

  method ComputeFillsOfCall(ctx: Context, tx: Tx, call: Call) returns (fills: seq<Fill>)
    ensures fills == FillsOfCall(ctx, tx, call)
  {
    if |call.ix.data| < 8 {
      return [];
    }
    if call.ix.data[..8] == MULTI_HOP_SWAP_DISC {
      fills := ComputeMultiHopFills(ctx, tx, call);
      return;
    }
    var kind := PumpSwapTradeIx(call.ix.data[..8]);
    if kind.None? {
      return [];
    }
    return SingleFills(ctx, tx, call, kind.value);
  }

  /** Every fill of the transaction becomes one record, numbered 0, 1, 2, ... without gaps. */
  method ProcessPumpSwapTx(ctx: Context, tx: Tx) returns (records: seq<Record>)
    ensures Numbered(records, Fills(ctx, tx), tx.success)
  {
    var all := GetProgramInstructions(tx, ctx.program);
    records := [];
    var tradeIndex := 0;
    ghost var done: seq<Fill> := [];
    for k := 0 to |all|
      invariant Numbered(records, done, tx.success) && tradeIndex == |records|
      invariant done + FillsOfCalls(ctx, tx, all[k..]) == FillsOfCalls(ctx, tx, all)
    {
      assert all[k..][0] == all[k] && all[k..][1..] == all[k + 1..];
      var fills := ComputeFillsOfCall(ctx, tx, all[k]);
      records, tradeIndex := EmitFills(records, done, fills, tx.success);
      Assoc(done, fills, FillsOfCalls(ctx, tx, all[k + 1..]));
      done := done + fills;
    }
    assert done == FillsOfCalls(ctx, tx, all);
  }
}
