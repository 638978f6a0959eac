/** What the handler's records mean, read off the transaction by key and by position: which
    instructions are looked at, which pools are recorded, and with what amounts. */
module AmmRecords {
  import opened Prelude
  import opened Bytes
  import opened CallTree
  import opened PumpEvents
  import opened Routes
  import opened AmmHandler
  import opened AmmProperties

  // ----- the program's instructions -----

  /** The index a program is invoked by is its first position among the accounts. */
  lemma {:induction false} ProgramAtIndex(accounts: seq<seq<byte>>, program: Key)
    ensures var r := ProgramIndex(accounts, program);
            if r.None? then program !in accounts
            else
              && r.value < |accounts| && accounts[r.value] == program
              && forall i :: 0 <= i < r.value ==> accounts[i] != program
  {
    if accounts != [] && accounts[0] != program {
      ProgramAtIndex(accounts[1..], program);
      assert accounts == [accounts[0]] + accounts[1..];
    }
  }

  /** The instruction stands at its own place in the transaction: a top-level one at `outer`, an
      inner one right before `start` in the block below `outer`. */
  ghost predicate StandsAt(tx: Tx, c: Call) {
    if c.start == 0 then c.outer < |tx.instrs| && tx.instrs[c.outer] == c.ix
    else exists b :: b in tx.blocks && InBlock(b, c)
  }

  ghost predicate InBlock(b: Block, c: Call) {
    b.index == c.outer && 0 < c.start <= |b.instrs| && b.instrs[c.start - 1].ix == c.ix
  }

  ghost predicate Invokes(tx: Tx, c: Call, program: Key) {
    c.ix.program < |tx.accounts| && tx.accounts[c.ix.program] == program
  }

  lemma {:induction false} InTopCalls(instrs: seq<Ix>, at: nat, program: nat, c: Call)
    ensures c in TopCalls(instrs, at, program)
       <==> c.ix.program == program && c.start == 0 && at <= c.outer < |instrs| && instrs[c.outer] == c.ix
    decreases |instrs| - at
  {
    if at < |instrs| {
      InTopCalls(instrs, at + 1, program, c);
    }
  }

  lemma {:induction false} InBlockCalls(b: Block, at: nat, program: nat, c: Call)
    ensures c in BlockCalls(b, at, program) <==> c.ix.program == program && c.start > at && InBlock(b, c)
    decreases |b.instrs| - at
  {
    if at < |b.instrs| {
      InBlockCalls(b, at + 1, program, c);
    }
  }

  lemma {:induction false} InInnerCalls(blocks: seq<Block>, at: nat, program: nat, c: Call)
    requires at <= |blocks|
    ensures c in InnerCalls(blocks, at, program)
       <==> c.ix.program == program && exists b :: b in blocks[at..] && InBlock(b, c)
    decreases |blocks| - at
  {
    if at < |blocks| {
      InBlockCalls(blocks[at], 0, program, c);
      InInnerCalls(blocks, at + 1, program, c);
      assert blocks[at..] == [blocks[at]] + blocks[at + 1..];
    }
  }

  /** With distinct accounts, the handler looks at exactly the instructions that invoke its program. */
  lemma {:induction false} CallsByKey(tx: Tx, program: Key, c: Call)
    requires Distinct(tx.accounts)
    ensures c in ProgramCalls(tx, program) <==> StandsAt(tx, c) && Invokes(tx, c, program)
  {
    ProgramAtIndex(tx.accounts, program);
    var index := ProgramIndex(tx.accounts, program);
    if index.Some? {
      InTopCalls(tx.instrs, 0, index.value, c);
      InInnerCalls(tx.blocks, 0, index.value, c);
      assert tx.blocks[0..] == tx.blocks;
    }
  }

  /** Top-level calls come first, in order; the calls below one top-level call come in order. */
  ghost predicate Before(a: Call, b: Call) {
    if b.start == 0 then a.start == 0 && a.outer < b.outer
    else a.start > 0 && a.outer == b.outer ==> a.start < b.start
  }

  ghost predicate InOrder(calls: seq<Call>) {
    forall i, j :: 0 <= i < j < |calls| ==> Before(calls[i], calls[j])
  }

  lemma {:induction false} InOrderAppend(a: seq<Call>, b: seq<Call>)
    requires InOrder(a) && InOrder(b) && forall x, y :: x in a && y in b ==> Before(x, y)
    ensures InOrder(a + b)
  {
    var all := a + b;
    forall i, j | 0 <= i < j < |all| ensures Before(all[i], all[j]) {
      if i < |a| <= j {
        assert all[i] in a && all[j] in b;
      }
    }
  }

  lemma {:induction false} TopCallsInOrder(instrs: seq<Ix>, at: nat, program: nat)
    ensures InOrder(TopCalls(instrs, at, program))
    decreases |instrs| - at
  {
    if at < |instrs| {
      var own := if instrs[at].program == program then [Call(instrs[at], at, 0)] else [];
      TopCallsInOrder(instrs, at + 1, program);
      TopCallsDistinct(instrs, at + 1, program);
      InOrderAppend(own, TopCalls(instrs, at + 1, program));
    }
  }

  lemma {:induction false} BlockCallsInOrder(b: Block, at: nat, program: nat)
    ensures InOrder(BlockCalls(b, at, program))
    decreases |b.instrs| - at
  {
    if at < |b.instrs| {
      var own := if b.instrs[at].ix.program == program then [Call(b.instrs[at].ix, b.index, at + 1)] else [];
      BlockCallsInOrder(b, at + 1, program);
      BlockCallsDistinct(b, at + 1, program);
      InOrderAppend(own, BlockCalls(b, at + 1, program));
    }
  }

  lemma {:induction false} InnerCallsInOrder(blocks: seq<Block>, at: nat, program: nat)
    requires IndexesDistinct(blocks)
    ensures InOrder(InnerCalls(blocks, at, program))
    decreases |blocks| - at
  {
    if at < |blocks| {
      BlockCallsInOrder(blocks[at], 0, program);
      BlockCallsDistinct(blocks[at], 0, program);
      InnerCallsInOrder(blocks, at + 1, program);
      InnerCallsDistinct(blocks, at + 1, program);
      InOrderAppend(BlockCalls(blocks[at], 0, program), InnerCalls(blocks, at + 1, program));
    }
  }

  /** The list is in that order, so every instruction is listed once. */
  lemma {:induction false} CallsInOrder(tx: Tx, program: Key)
    requires IndexesDistinct(tx.blocks)
    ensures InOrder(ProgramCalls(tx, program))
  {
    var index := ProgramIndex(tx.accounts, program);
    if index.Some? {
      TopCallsInOrder(tx.instrs, 0, index.value);
      TopCallsDistinct(tx.instrs, 0, index.value);
      InnerCallsInOrder(tx.blocks, 0, index.value);
      InnerCallsDistinct(tx.blocks, 0, index.value);
      InOrderAppend(TopCalls(tx.instrs, 0, index.value), InnerCalls(tx.blocks, 0, index.value));
    }
  }

  // ----- which pools are recorded -----

  /** The canonical pool of a coin that is not the wrapped native one and, unless the collector is
      read-only, is on the whitelist. */
  ghost predicate Tracked(ctx: Context, pool: Key, mint: Key, quoteMint: Key) {
    && mint != ctx.wsol
    && (ctx.readonly || mint in ctx.whitelist)
    && pool == ctx.canonical(mint, quoteMint)
  }

  lemma {:induction false} EligibleIsTracked(ctx: Context, pool: Key, mint: Key, quoteMint: Key)
    ensures Eligible(ctx, pool, mint, quoteMint).Some? <==> Tracked(ctx, pool, mint, quoteMint)
    ensures Eligible(ctx, pool, mint, quoteMint) == Some(Sol) ==> quoteMint == ctx.wsol
    ensures Eligible(ctx, pool, mint, quoteMint) == Some(Usdc) ==> quoteMint == ctx.usdc
    ensures Eligible(ctx, pool, mint, quoteMint) == Some(Other) ==> quoteMint !in {ctx.wsol, ctx.usdc}
  {
  }

  ghost predicate AllTracked(ctx: Context, fills: seq<Fill>) {
    forall f :: f in fills ==> Tracked(ctx, f.pool, f.mint, f.quoteMint)
  }

  lemma {:induction false} SuccessTracked(ctx: Context, r: Route, next: nat, events: seq<Emitted>)
    requires next <= |r.hops|
    ensures AllTracked(ctx, SuccessFills(ctx, r, next, events))
    decreases events
  {
    if events != [] {
      var m := MatchEvent(ctx, r, next, events[0]);
      SuccessStep(ctx, r, next, events);
      SuccessTracked(ctx, r, m.next, events[1..]);
      OneTracked(ctx, r, next, events[0]);
    }
  }

  lemma {:induction false} OneTracked(ctx: Context, r: Route, next: nat, e: Emitted)
    requires next <= |r.hops|
    ensures AllTracked(ctx, MatchEvent(ctx, r, next, e).fills)
  {
  }

  lemma {:induction false} FailedTracked(ctx: Context, r: Route, sides: seq<bool>, i: nat, amountIn: u64, minOut: u64)
    requires |sides| == |r.hops|
    ensures AllTracked(ctx, FailedFills(ctx, r, sides, i, amountIn, minOut))
    decreases |r.hops| - i
  {
    if i < |r.hops| {
      FailedStep(ctx, r, sides, i, amountIn, minOut);
      FailedTracked(ctx, r, sides, i + 1, amountIn, minOut);
    }
  }

  lemma {:induction false} CallTracked(ctx: Context, tx: Tx, call: Call)
    ensures AllTracked(ctx, FillsOfCall(ctx, tx, call))
  {
    if |call.ix.data| >= 8 && call.ix.data[..8] == MULTI_HOP_SWAP_DISC {
      var r := RouteOf(tx, call);
      if tx.success {
        SuccessTracked(ctx, r, 0, EventsOfCall(tx, call));
      } else if MultiHopFills(ctx, tx, call) != [] {
        var sides := Sides(r.hops, InputMint(call.ix, tx.preBalances, r.hops).value).value;
        var (amountIn, minOut) := RequestedAmounts(call.ix.data, false);
        FailedTracked(ctx, r, sides, 0, amountIn, minOut);
      }
    }
  }

  lemma {:induction false} CallsTracked(ctx: Context, tx: Tx, calls: seq<Call>)
    ensures AllTracked(ctx, FillsOfCalls(ctx, tx, calls))
  {
    if calls != [] {
      CallTracked(ctx, tx, calls[0]);
      CallsTracked(ctx, tx, calls[1..]);
    }
  }

  /** Nothing but tracked pools is ever recorded. */
  lemma {:induction false} OnlyTrackedRecorded(ctx: Context, tx: Tx)
    ensures AllTracked(ctx, Fills(ctx, tx))
  {
    CallsTracked(ctx, tx, ProgramCalls(tx, ctx.program));
  }

  // ----- what a single-pool trade is recorded with -----

  /** The accounts of a single-pool trade, each the 32-byte account its index names. */
  ghost predicate NamesAccounts(tx: Tx, ix: Ix, pool: Key, mint: Key, quoteMint: Key) {
    && |ix.accounts| >= 5
    && AccountIs(tx, ix.accounts[0], pool) && AccountIs(tx, ix.accounts[3], mint)
    && AccountIs(tx, ix.accounts[4], quoteMint)
  }

  ghost predicate AccountIs(tx: Tx, index: nat, key: Key) {
    index < |tx.accounts| && tx.accounts[index] == key
  }

  /** Event `k` is the first of the call's own events with its discriminator. */
  ghost predicate FirstOf(events: seq<Emitted>, k: nat) {
    && k < |events|
    && forall j :: 0 <= j < k ==> events[j].data[..8] != events[k].data[..8]
  }

  lemma {:induction false} FirstFound(events: seq<Emitted>, k: nat)
    requires FirstOf(events, k)
    ensures FindEvent(events, events[k].data[..8]) == Some(events[k])
  {
    if k > 0 {
      assert events[0].data[..8] != events[k].data[..8];
      assert forall j :: 0 <= j < |events| - 1 ==> events[1..][j] == events[j + 1];
      FirstFound(events[1..], k - 1);
    }
  }

  lemma {:induction false} NoneFound(events: seq<Emitted>, disc: seq<byte>)
    requires forall e :: e in events ==> e.data[..8] != disc
    ensures FindEvent(events, disc) == None
  {
    if events != [] {
      assert events[0] in events;
      NoneFound(events[1..], disc);
    }
  }

  /** The fill of a trade of kind `kind` with these amounts. */
  function TradeFill(tx: Tx, call: Call, kind: TradeIx, pool: Key, mint: Key, quoteMint: Key, amounts: Amounts,
                     source: Source): Fill
  {
    Fill(pool, mint, quoteMint, Single(kind.name), call.start > 0,
         if |call.ix.accounts| > 1 then KeyAt(tx.accounts, call.ix.accounts[1]) else None, kind.isBuy, amounts, source)
  }

  lemma {:induction false} SingleFillIs(ctx: Context, tx: Tx, call: Call, kind: TradeIx, pool: Key, mint: Key,
                                        quoteMint: Key)
    requires |call.ix.data| >= 8 && PumpSwapTradeIx(call.ix.data[..8]) == Some(kind)
    requires NamesAccounts(tx, call.ix, pool, mint, quoteMint) && Tracked(ctx, pool, mint, quoteMint)
    ensures Eligible(ctx, pool, mint, quoteMint).Some?
    ensures var executed := ExecutedAmounts(tx, call, kind, Eligible(ctx, pool, mint, quoteMint).value);
            FillsOfCall(ctx, tx, call)
            == [TradeFill(tx, call, kind, pool, mint, quoteMint, executed.amounts, executed.source)]
  {
    EligibleIsTracked(ctx, pool, mint, quoteMint);
    NotARoute(call.ix.data[..8]);
  }

  lemma {:induction false} NotARoute(disc: seq<byte>)
    requires PumpSwapTradeIx(disc).Some?
    ensures disc != MULTI_HOP_SWAP_DISC
  {
    assert MULTI_HOP_SWAP_DISC[0] == 43;
  }

  /** The cap does not depend on the currency's unit. */
  lemma {:induction false} SwapInAnyCurrency(e: TradeEvent, currency: QuoteCurrency)
    ensures SwapAmounts(e, currency) == SwapAmounts(e, Other)
  {
    var quote := Clamp(e.poolQuote + e.virtualQuote, 0, U64_MAX);
    MarketCapIgnoresUnit(e.poolBase, quote, 0, 0, false, BaseUnit(currency));
    MarketCapIgnoresUnit(e.poolBase, quote, 0, 0, false, BaseUnit(Other));
  }

  /** An executed single-pool trade of a tracked pool gives one record, with what the swap traded,
      the cap of the reserves it left, and those reserves. */
  lemma {:induction false} ExecutedTradeRecorded(ctx: Context, tx: Tx, call: Call, kind: TradeIx, pool: Key, mint: Key,
                                                 quoteMint: Key, e: TradeEvent, k: nat)
    requires tx.success && |call.ix.data| >= 8 && PumpSwapTradeIx(call.ix.data[..8]) == Some(kind)
    requires NamesAccounts(tx, call.ix, pool, mint, quoteMint) && Tracked(ctx, pool, mint, quoteMint)
    requires WellFormed(e) && kind.isBuy == e.isBuy && kind.eventDisc == Disc(e.isBuy)
    requires FirstOf(EventsOfCall(tx, call), k) && EventsOfCall(tx, call)[k].data == Encode(e)
    ensures FillsOfCall(ctx, tx, call)
         == [TradeFill(tx, call, kind, pool, mint, quoteMint, SwapAmounts(e, Other),
                       FromEvent(call.outer, EventsOfCall(tx, call)[k].pos))]
  {
    SingleFillIs(ctx, tx, call, kind, pool, mint, quoteMint);
    var currency := Eligible(ctx, pool, mint, quoteMint).value;
    FirstFound(EventsOfCall(tx, call), k);
    EncodedFields(e);
    EncodedEventRead(e, currency);
    SwapInAnyCurrency(e, currency);
  }

  /** What a boost record holds. */
  function BoostAmountsOf(e: BoostWritten): Amounts {
    var quote := Clamp(e.realQuote + e.virtualQuote, 0, U64_MAX);
    Amounts(e.baseBurned, e.quoteUsed, Some(MarketCapFromReserves(e.baseAfter, quote, 1.0)), e.baseAfter, quote)
  }

  /** So does a boost. */
  lemma {:induction false} ExecutedBoostRecorded(ctx: Context, tx: Tx, call: Call, kind: TradeIx, pool: Key, mint: Key,
                                                 quoteMint: Key, e: BoostWritten, k: nat)
    requires tx.success && |call.ix.data| >= 8 && PumpSwapTradeIx(call.ix.data[..8]) == Some(kind)
    requires NamesAccounts(tx, call.ix, pool, mint, quoteMint) && Tracked(ctx, pool, mint, quoteMint)
    requires BoostWellFormed(e) && kind.eventDisc == BOOST_EVENT_DISC
    requires FirstOf(EventsOfCall(tx, call), k) && EventsOfCall(tx, call)[k].data == EncodeBoost(e)
    ensures FillsOfCall(ctx, tx, call)
         == [TradeFill(tx, call, kind, pool, mint, quoteMint, BoostAmountsOf(e),
                       FromEvent(call.outer, EventsOfCall(tx, call)[k].pos))]
  {
    SingleFillIs(ctx, tx, call, kind, pool, mint, quoteMint);
    var currency := Eligible(ctx, pool, mint, quoteMint).value;
    FirstFound(EventsOfCall(tx, call), k);
    BoostInAnyCurrency(e, kind.isBuy, currency);
  }

  lemma {:induction false} BoostInAnyCurrency(e: BoostWritten, isBuy: bool, currency: QuoteCurrency)
    requires BoostWellFormed(e)
    ensures |EncodeBoost(e)| >= 8 && EncodeBoost(e)[..8] == BOOST_EVENT_DISC
    ensures EventAmounts(EncodeBoost(e), BOOST_EVENT_DISC, isBuy, currency) == Some(BoostAmountsOf(e))
  {
    var quote := Clamp(e.realQuote + e.virtualQuote, 0, U64_MAX);
    BoostRoundTrip(e);
    EncodedBoostRead(e, isBuy, currency);
    MarketCapIgnoresUnit(e.baseAfter, quote, 0, 0, false, BaseUnit(currency));
    MarketCapIgnoresUnit(e.baseAfter, quote, 0, 0, false, 1.0);
  }

  lemma {:induction false} ArgumentsRead(disc: seq<byte>, arg0: u64, arg1: u64, rest: seq<byte>, exactIn: bool)
    requires |disc| == 8
    ensures var data := disc + (LeBytes(arg0, 8) + (LeBytes(arg1, 8) + rest));
            && data[..8] == disc
            && U64At(data, 8) == Some(arg0) && U64At(data, 16) == Some(arg1)
            && RequestedAmounts(data, exactIn) == if exactIn then (arg1, arg0) else (arg0, arg1)
  {
    var second := LeBytes(arg1, 8) + rest;
    U64Skip(disc, LeBytes(arg0, 8) + second, 8);
    U64First(arg0, second);
    U64Skip(disc, LeBytes(arg0, 8) + second, 16);
    U64Skip(LeBytes(arg0, 8), second, 8);
    U64First(arg1, rest);
  }

  /** A request whose arguments are cut off counts as nothing. */
  lemma {:induction false} CutRequestRecorded(ctx: Context, tx: Tx, call: Call, kind: TradeIx, pool: Key, mint: Key,
                                              quoteMint: Key)
    requires 8 <= |call.ix.data| < 24 && PumpSwapTradeIx(call.ix.data[..8]) == Some(kind)
    requires NamesAccounts(tx, call.ix, pool, mint, quoteMint) && Tracked(ctx, pool, mint, quoteMint)
    requires !tx.success
    ensures FillsOfCall(ctx, tx, call)
         == [TradeFill(tx, call, kind, pool, mint, quoteMint, Amounts(0, 0, None, 0, 0), InstructionRequest)]
  {
    SingleFillIs(ctx, tx, call, kind, pool, mint, quoteMint);
  }

  /** A trade that failed, or whose own event is missing, is recorded with the two amounts it asked
      for, spent quote first where the quote is the exact side, and without cap or reserves. */
  lemma {:induction false} RequestedTradeRecorded(ctx: Context, tx: Tx, call: Call, kind: TradeIx, pool: Key,
                                                  mint: Key, quoteMint: Key, disc: seq<byte>, arg0: u64, arg1: u64,
                                                  rest: seq<byte>)
    requires |disc| == 8 && call.ix.data == disc + (LeBytes(arg0, 8) + (LeBytes(arg1, 8) + rest))
    requires PumpSwapTradeIx(disc) == Some(kind)
    requires NamesAccounts(tx, call.ix, pool, mint, quoteMint) && Tracked(ctx, pool, mint, quoteMint)
    requires !tx.success || forall e :: e in EventsOfCall(tx, call) ==> e.data[..8] != kind.eventDisc
    ensures var (token, quote) := if kind.exactIn then (arg1, arg0) else (arg0, arg1);
            FillsOfCall(ctx, tx, call)
            == [TradeFill(tx, call, kind, pool, mint, quoteMint, Amounts(token, quote, None, 0, 0),
                          InstructionRequest)]
  {
    ArgumentsRead(disc, arg0, arg1, rest, kind.exactIn);
    SingleFillIs(ctx, tx, call, kind, pool, mint, quoteMint);
    if tx.success {
      NoneFound(EventsOfCall(tx, call), kind.eventDisc);
    }
  }
}
