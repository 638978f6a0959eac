/** What the PumpSwap handler promises: both route decoders agree, requested amounts are
    conserved, and no event is counted twice. */
module AmmProperties {
  import opened Prelude
  import opened Bytes
  import opened CallTree
  import opened PumpEvents
  import opened Routes
  import opened AmmHandler

  // ----- events as executed amounts -----

  lemma {:induction false} TradeHasAmounts(data: Payload, currency: QuoteCurrency)
    requires TradeOf(data).Some?
    ensures EventAmounts(data, data[..8], TradeOf(data).value.0, currency).Some?
  {
    DiscsDiffer();
  }

  /** What a swap's record holds: what was traded, and the reserves it left behind. */
  function SwapAmounts(swap: TradeEvent, currency: QuoteCurrency): Amounts {
    var quote := Clamp(swap.poolQuote + swap.virtualQuote, 0, U64_MAX);
    Amounts(swap.amount, if swap.isBuy then swap.buyQuote else swap.sellQuote,
            Some(MarketCapFromReserves(swap.poolBase, quote, BaseUnit(currency))), swap.poolBase, quote)
  }

  /** A trade event on the chain is read back as its side, pool and amounts, priced against the
      effective quote reserves. */
  lemma {:induction false} EncodedEventRead(e: TradeEvent, currency: QuoteCurrency)
    requires WellFormed(e)
    ensures |Encode(e)| >= 8 && TradeOf(Encode(e)) == Some((e.isBuy, e.pool))
    ensures EventAmounts(Encode(e), Encode(e)[..8], e.isBuy, currency) == Some(SwapAmounts(e, currency))
  {
    EncodedFields(e);
    DiscsDiffer();
    AmountsOfFields(Encode(e), e, currency);
  }

  lemma {:induction false} EncodedFields(e: TradeEvent)
    requires WellFormed(e)
    ensures FieldsOf(Encode(e), e)
  {
    var rest := I128Bytes(e.virtualQuote) + e.appended;
    assert Encode(e) == EventHead(e) + (EventMiddle(e) + rest);
    HeadRoundTrip(e, EventMiddle(e) + rest);
    VirtualReservesRoundTrip(e);
  }

  /** The decoders read the fields of `e` from `b`. */
  ghost predicate FieldsOf(b: seq<byte>, e: TradeEvent) {
    && |b| >= 8 && b[..8] == Disc(e.isBuy)
    && TransactionAmount(b) == Some(e.amount)
    && PoolReserves(b) == (Some(e.poolBase), Some(e.poolQuote))
    && QuoteVolume(b) == (Some(e.buyQuote), Some(e.sellQuote))
    && EventPool(b) == Some(e.pool)
    && VirtualQuoteReserves(b, e.isBuy) == Some(e.virtualQuote)
  }

  lemma {:induction false} AmountsOfFields(b: seq<byte>, e: TradeEvent, currency: QuoteCurrency)
    requires FieldsOf(b, e) && Disc(e.isBuy) != BOOST_EVENT_DISC
    ensures EventAmounts(b, Disc(e.isBuy), e.isBuy, currency) == Some(SwapAmounts(e, currency))
  {
  }

  /** So is a boost event: what was burned and used, and the reserves it left behind. */
  lemma {:induction false} EncodedBoostRead(e: BoostWritten, isBuy: bool, currency: QuoteCurrency)
    requires BoostWellFormed(e)
    ensures |EncodeBoost(e)| >= 8
    ensures var quote := Clamp(e.realQuote + e.virtualQuote, 0, U64_MAX);
            EventAmounts(EncodeBoost(e), EncodeBoost(e)[..8], isBuy, currency)
            == Some(Amounts(e.baseBurned, e.quoteUsed,
                            Some(MarketCapFromReserves(e.baseAfter, quote, BaseUnit(currency))), e.baseAfter, quote))
  {
    BoostRoundTrip(e);
  }

  lemma {:induction false} DiscsDiffer()
    ensures BUY_EVENT_DISC != SELL_EVENT_DISC && BUY_EVENT_DISC != BOOST_EVENT_DISC
    ensures SELL_EVENT_DISC != BOOST_EVENT_DISC
  {
    assert BUY_EVENT_DISC[0] != SELL_EVENT_DISC[0] && BUY_EVENT_DISC[0] != BOOST_EVENT_DISC[0];
    assert SELL_EVENT_DISC[0] != BOOST_EVENT_DISC[0];
  }

  // ----- successful and failed routes decode alike -----

  datatype Shape = Shape(pool: Key, mint: Key, quoteMint: Key, kind: Kind, isBuy: bool)

  function Shapes(fills: seq<Fill>): seq<Shape> {
    if fills == [] then []
    else [Shape(fills[0].pool, fills[0].mint, fills[0].quoteMint, fills[0].kind, fills[0].isBuy)] + Shapes(fills[1..])
  }

  lemma {:induction false} ShapesOfCons(own: seq<Fill>, rest: seq<Fill>)
    requires |own| <= 1
    ensures Shapes(own + rest) == Shapes(own) + Shapes(rest)
  {
    if own == [] {
      assert own + rest == rest;
    } else {
      assert (own + rest)[1..] == rest;
      assert own[1..] == [];
    }
  }

  /** Specification: the eligible hops of the route, each with its side and tag. */
  function RouteShapes(ctx: Context, r: Route, sides: seq<bool>, at: nat): seq<Shape>
    requires |sides| == |r.hops|
    decreases |r.hops| - at
  {
    if at >= |r.hops| then []
    else HopShape(ctx, r, sides[at], r.hops[at]) + RouteShapes(ctx, r, sides, at + 1)
  }

  function HopShape(ctx: Context, r: Route, isBuy: bool, hop: Hop): seq<Shape> {
    if Eligible(ctx, hop.pool, hop.base, hop.quote).None? then []
    else [Shape(hop.pool, hop.base, hop.quote,
                if IsRouted(r.hops, hop.base, isBuy) then MultiHopRouted else MultiHop, isBuy)]
  }

  /** The Buy/SellEvents among `events`, in order. */
  function TradesOf(events: seq<Emitted>): seq<Emitted> {
    if events == [] then []
    else (if TradeOf(events[0].data).Some? then [events[0]] else []) + TradesOf(events[1..])
  }

  /** `trades` are what executing the hops from `at` on emits: the k-th pool hop emits the k-th
      event, on its own side and pool; curve hops emit elsewhere. */
  ghost predicate Executes(hops: seq<Hop>, isPool: seq<bool>, sides: seq<bool>, at: nat, trades: seq<Emitted>)
    requires |isPool| == |sides| == |hops|
    decreases |hops| - at
  {
    if at >= |hops| then trades == []
    else if !isPool[at] then Executes(hops, isPool, sides, at + 1, trades)
    else
      && trades != [] && TradeOf(trades[0].data) == Some((sides[at], hops[at].pool))
      && Executes(hops, isPool, sides, at + 1, trades[1..])
  }

  /** Specification: every eligible pool hop with the amounts and the position of its own event. */
  function RouteFills(ctx: Context, r: Route, isPool: seq<bool>, sides: seq<bool>, at: nat,
                      trades: seq<Emitted>): seq<Fill>
    requires |isPool| == |sides| == |r.hops|
    decreases |r.hops| - at
  {
    if at >= |r.hops| || trades == [] then []
    else if !isPool[at] then RouteFills(ctx, r, isPool, sides, at + 1, trades)
    else
      FillOfEvent(ctx, r, r.hops[at], sides[at], trades[0])
      + RouteFills(ctx, r, isPool, sides, at + 1, trades[1..])
  }

  lemma {:induction false} RouteShapesStep(ctx: Context, r: Route, sides: seq<bool>, at: nat)
    requires |sides| == |r.hops| && at < |r.hops|
    ensures RouteShapes(ctx, r, sides, at)
         == HopShape(ctx, r, sides[at], r.hops[at]) + RouteShapes(ctx, r, sides, at + 1)
  {
  }

  lemma {:induction false} RouteFillsStep(ctx: Context, r: Route, isPool: seq<bool>, sides: seq<bool>, at: nat,
                                          trades: seq<Emitted>)
    requires |isPool| == |sides| == |r.hops| && at < |r.hops| && isPool[at] && trades != []
    ensures RouteFills(ctx, r, isPool, sides, at, trades)
         == FillOfEvent(ctx, r, r.hops[at], sides[at], trades[0])
            + RouteFills(ctx, r, isPool, sides, at + 1, trades[1..])
  {
  }

  lemma {:induction false} CurveFillsStep(ctx: Context, r: Route, isPool: seq<bool>, sides: seq<bool>, at: nat,
                                          trades: seq<Emitted>)
    requires |isPool| == |sides| == |r.hops| && at < |r.hops| && !isPool[at]
    ensures RouteFills(ctx, r, isPool, sides, at, trades) == RouteFills(ctx, r, isPool, sides, at + 1, trades)
  {
  }

  lemma {:induction false} CurveShapesStep(ctx: Context, r: Route, isPool: seq<bool>, sides: seq<bool>, at: nat)
    requires |isPool| == |sides| == |r.hops| && at < |r.hops| && !isPool[at] && CurvesApart(ctx, r.hops, isPool)
    ensures RouteShapes(ctx, r, sides, at) == RouteShapes(ctx, r, sides, at + 1)
  {
    var hop := r.hops[at];
    assert Eligible(ctx, hop.pool, hop.base, hop.quote).None?;
  }

  lemma {:induction false} ExecutesStep(hops: seq<Hop>, isPool: seq<bool>, sides: seq<bool>, at: nat,
                                        trades: seq<Emitted>)
    requires |isPool| == |sides| == |hops| && at < |hops| && Executes(hops, isPool, sides, at, trades)
    ensures if !isPool[at] then Executes(hops, isPool, sides, at + 1, trades)
            else
              && trades != [] && TradeOf(trades[0].data) == Some((sides[at], hops[at].pool))
              && Executes(hops, isPool, sides, at + 1, trades[1..])
  {
  }

  lemma {:induction false} SuccessStep(ctx: Context, r: Route, next: nat, events: seq<Emitted>)
    requires next <= |r.hops| && events != []
    ensures var m := MatchEvent(ctx, r, next, events[0]);
            SuccessFills(ctx, r, next, events) == m.fills + SuccessFills(ctx, r, m.next, events[1..])
  {
  }

  /** Curves are told apart from pools by their keys, and are never canonical pools. */
  ghost predicate CurvesApart(ctx: Context, hops: seq<Hop>, isPool: seq<bool>)
    requires |isPool| == |hops|
  {
    && (forall i, j :: 0 <= i < |hops| && 0 <= j < |hops| && isPool[i] && !isPool[j] ==> hops[i].pool != hops[j].pool)
    && (forall j :: 0 <= j < |hops| && !isPool[j] ==> ctx.canonical(hops[j].base, hops[j].quote) != hops[j].pool)
  }

  /** With only other pools in between, an event is matched to its own hop. */
  lemma {:induction false} MatchedToOwnHop(ctx: Context, r: Route, at: nat, next: nat, e: Emitted, isBuy: bool)
    requires next <= at < |r.hops| && TradeOf(e.data) == Some((isBuy, r.hops[at].pool))
    requires forall i :: next <= i < at ==> r.hops[i].pool != r.hops[at].pool
    ensures MatchEvent(ctx, r, next, e) == Matched(FillOfEvent(ctx, r, r.hops[at], isBuy, e), at + 1)
  {
    assert FindHop(r.hops, next, r.hops[at].pool) == at;
  }

  /** The search passes over everything that is not a trade event. */
  lemma {:induction false} TradesSuffice(ctx: Context, r: Route, next: nat, events: seq<Emitted>)
    requires next <= |r.hops|
    ensures SuccessFills(ctx, r, next, events) == SuccessFills(ctx, r, next, TradesOf(events))
    decreases events
  {
    if events != [] {
      var m := MatchEvent(ctx, r, next, events[0]);
      SuccessStep(ctx, r, next, events);
      if TradeOf(events[0].data).None? {
        NotMatched(ctx, r, next, events[0]);
        NotTaken(events);
        TradesSuffice(ctx, r, next, events[1..]);
      } else {
        TradesHead(events);
        TradesSuffice(ctx, r, m.next, events[1..]);
        SuccessStep(ctx, r, next, TradesOf(events));
      }
    }
  }

  lemma {:induction false} NotMatched(ctx: Context, r: Route, next: nat, e: Emitted)
    requires next <= |r.hops| && TradeOf(e.data).None?
    ensures MatchEvent(ctx, r, next, e) == Matched([], next)
  {
  }

  lemma {:induction false} NotTaken(events: seq<Emitted>)
    requires events != [] && TradeOf(events[0].data).None?
    ensures TradesOf(events) == TradesOf(events[1..])
  {
  }

  lemma {:induction false} TradesHead(events: seq<Emitted>)
    requires events != [] && TradeOf(events[0].data).Some?
    ensures TradesOf(events) != [] && TradesOf(events)[0] == events[0] && TradesOf(events)[1..] == TradesOf(events[1..])
  {
  }

  lemma {:induction false} OthersBetween(ctx: Context, hops: seq<Hop>, isPool: seq<bool>, at: nat, next: nat)
    requires |isPool| == |hops| && next <= at < |hops| && isPool[at] && forall i :: next <= i < at ==> !isPool[i]
    requires CurvesApart(ctx, hops, isPool)
    ensures forall i :: next <= i < at ==> hops[i].pool != hops[at].pool
  {
  }

  lemma {:induction false} PoolMatched(ctx: Context, r: Route, isBuy: bool, at: nat, next: nat, trades: seq<Emitted>)
    requires next <= at < |r.hops| && forall i :: next <= i < at ==> r.hops[i].pool != r.hops[at].pool
    requires trades != [] && TradeOf(trades[0].data) == Some((isBuy, r.hops[at].pool))
    ensures SuccessFills(ctx, r, next, trades)
         == FillOfEvent(ctx, r, r.hops[at], isBuy, trades[0]) + SuccessFills(ctx, r, at + 1, trades[1..])
  {
    MatchedToOwnHop(ctx, r, at, next, trades[0], isBuy);
    SuccessStep(ctx, r, next, trades);
  }

  /** The event of a pool hop is matched to it: both sides move on with the same fill. */
  lemma {:induction false} PoolStep(ctx: Context, r: Route, isPool: seq<bool>, sides: seq<bool>, at: nat, next: nat,
                                    trades: seq<Emitted>)
    requires |isPool| == |sides| == |r.hops| && next <= at < |r.hops| && isPool[at]
    requires CurvesApart(ctx, r.hops, isPool) && forall i :: next <= i < at ==> !isPool[i]
    requires trades != [] && TradeOf(trades[0].data) == Some((sides[at], r.hops[at].pool))
    requires SuccessFills(ctx, r, at + 1, trades[1..]) == RouteFills(ctx, r, isPool, sides, at + 1, trades[1..])
    ensures SuccessFills(ctx, r, next, trades) == RouteFills(ctx, r, isPool, sides, at, trades)
  {
    OthersBetween(ctx, r.hops, isPool, at, next);
    PoolMatched(ctx, r, sides[at], at, next, trades);
    RouteFillsStep(ctx, r, isPool, sides, at, trades);
  }

  lemma {:induction false} TradesMatchRoute(ctx: Context, r: Route, isPool: seq<bool>, sides: seq<bool>, at: nat,
                                            next: nat, trades: seq<Emitted>)
    requires |isPool| == |sides| == |r.hops| && next <= at <= |r.hops|
    requires CurvesApart(ctx, r.hops, isPool) && forall i :: next <= i < at ==> !isPool[i]
    requires Executes(r.hops, isPool, sides, at, trades)
    ensures SuccessFills(ctx, r, next, trades) == RouteFills(ctx, r, isPool, sides, at, trades)
    decreases |r.hops| - at
  {
    if at == |r.hops| {
      RouteEnds(ctx, r, isPool, sides, next, trades);
    } else if !isPool[at] {
      ExecutesStep(r.hops, isPool, sides, at, trades);
      TradesMatchRoute(ctx, r, isPool, sides, at + 1, next, trades);
      CurveStep(ctx, r, isPool, sides, at, next, trades);
    } else {
      ExecutesStep(r.hops, isPool, sides, at, trades);
      TradesMatchRoute(ctx, r, isPool, sides, at + 1, at + 1, trades[1..]);
      PoolStep(ctx, r, isPool, sides, at, next, trades);
    }
  }

  lemma {:induction false} RouteEnds(ctx: Context, r: Route, isPool: seq<bool>, sides: seq<bool>, next: nat,
                                     trades: seq<Emitted>)
    requires |isPool| == |sides| == |r.hops| && next <= |r.hops|
    requires Executes(r.hops, isPool, sides, |r.hops|, trades)
    ensures SuccessFills(ctx, r, next, trades) == RouteFills(ctx, r, isPool, sides, |r.hops|, trades)
  {
    assert trades == [];
  }

  lemma {:induction false} CurveStep(ctx: Context, r: Route, isPool: seq<bool>, sides: seq<bool>, at: nat, next: nat,
                                     trades: seq<Emitted>)
    requires |isPool| == |sides| == |r.hops| && next <= at < |r.hops| && !isPool[at]
    requires SuccessFills(ctx, r, next, trades) == RouteFills(ctx, r, isPool, sides, at + 1, trades)
    ensures SuccessFills(ctx, r, next, trades) == RouteFills(ctx, r, isPool, sides, at, trades)
  {
    CurveFillsStep(ctx, r, isPool, sides, at, trades);
  }

  /** The greedy search never misses or misplaces an event of an executed route: every eligible
      pool hop, in order, gets the amounts and the position of its own event. */
  lemma {:induction false} GreedyMatchesRoute(ctx: Context, r: Route, isPool: seq<bool>, sides: seq<bool>,
                                              events: seq<Emitted>)
    requires |isPool| == |sides| == |r.hops| && CurvesApart(ctx, r.hops, isPool)
    requires Executes(r.hops, isPool, sides, 0, TradesOf(events))
    ensures SuccessFills(ctx, r, 0, events) == RouteFills(ctx, r, isPool, sides, 0, TradesOf(events))
  {
    TradesSuffice(ctx, r, 0, events);
    TradesMatchRoute(ctx, r, isPool, sides, 0, 0, TradesOf(events));
  }

  /** The recorded hops of an executed route have the specified shapes. */
  lemma {:induction false} ExecutedShapes(ctx: Context, r: Route, isPool: seq<bool>, sides: seq<bool>, at: nat,
                                          trades: seq<Emitted>)
    requires |isPool| == |sides| == |r.hops| && CurvesApart(ctx, r.hops, isPool)
    requires Executes(r.hops, isPool, sides, at, trades)
    ensures Shapes(RouteFills(ctx, r, isPool, sides, at, trades)) == RouteShapes(ctx, r, sides, at)
    decreases |r.hops| - at
  {
    if at < |r.hops| {
      ExecutesStep(r.hops, isPool, sides, at, trades);
      if !isPool[at] {
        CurveFillsStep(ctx, r, isPool, sides, at, trades);
        CurveShapesStep(ctx, r, isPool, sides, at);
        ExecutedShapes(ctx, r, isPool, sides, at + 1, trades);
      } else {
        ExecutedShapes(ctx, r, isPool, sides, at + 1, trades[1..]);
        ShapesStep(ctx, r, isPool, sides, at, trades);
      }
    }
  }

  lemma {:induction false} ShapesStep(ctx: Context, r: Route, isPool: seq<bool>, sides: seq<bool>, at: nat,
                                      trades: seq<Emitted>)
    requires |isPool| == |sides| == |r.hops| && at < |r.hops| && isPool[at]
    requires trades != [] && TradeOf(trades[0].data) == Some((sides[at], r.hops[at].pool))
    requires Shapes(RouteFills(ctx, r, isPool, sides, at + 1, trades[1..])) == RouteShapes(ctx, r, sides, at + 1)
    ensures Shapes(RouteFills(ctx, r, isPool, sides, at, trades)) == RouteShapes(ctx, r, sides, at)
  {
    var own := FillOfEvent(ctx, r, r.hops[at], sides[at], trades[0]);
    RouteShapesStep(ctx, r, sides, at);
    RouteFillsStep(ctx, r, isPool, sides, at, trades);
    OwnShape(ctx, r, r.hops[at], sides[at], trades[0]);
    ShapesOfCons(own, RouteFills(ctx, r, isPool, sides, at + 1, trades[1..]));
  }

  lemma {:induction false} OwnShape(ctx: Context, r: Route, hop: Hop, isBuy: bool, e: Emitted)
    requires TradeOf(e.data) == Some((isBuy, hop.pool))
    ensures Shapes(FillOfEvent(ctx, r, hop, isBuy, e)) == HopShape(ctx, r, isBuy, hop)
    ensures |FillOfEvent(ctx, r, hop, isBuy, e)| <= 1
  {
    var own := FillOfEvent(ctx, r, hop, isBuy, e);
    var currency := Eligible(ctx, hop.pool, hop.base, hop.quote);
    if currency.Some? {
      TradeHasAmounts(e.data, currency.value);
      assert own[1..] == [];
    }
  }

  // ----- from the swaps themselves -----

  /** The k-th event encodes the k-th swap. */
  ghost predicate EncodeAll(trades: seq<Emitted>, swaps: seq<TradeEvent>) {
    && |trades| == |swaps|
    && forall k :: 0 <= k < |swaps| ==> WellFormed(swaps[k]) && trades[k].data == Encode(swaps[k])
  }

  /** Specification: every eligible pool hop with the amounts of its own swap. */
  function SwapFills(ctx: Context, r: Route, isPool: seq<bool>, at: nat, swaps: seq<TradeEvent>,
                     trades: seq<Emitted>): seq<Fill>
    requires |isPool| == |r.hops| && |swaps| == |trades|
    decreases |r.hops| - at
  {
    if at >= |r.hops| || swaps == [] then []
    else if !isPool[at] then SwapFills(ctx, r, isPool, at + 1, swaps, trades)
    else
      SwapFill(ctx, r, r.hops[at], swaps[0], trades[0].pos)
      + SwapFills(ctx, r, isPool, at + 1, swaps[1..], trades[1..])
  }

  function SwapFill(ctx: Context, r: Route, hop: Hop, swap: TradeEvent, pos: nat): seq<Fill> {
    var currency := Eligible(ctx, hop.pool, hop.base, hop.quote);
    if currency.None? then []
    else [HopFill(r, hop, swap.isBuy, SwapAmounts(swap, currency.value), FromEvent(r.outer, pos))]
  }

  lemma {:induction false} OwnFillOfSwap(ctx: Context, r: Route, hop: Hop, isBuy: bool, e: Emitted, swap: TradeEvent)
    requires WellFormed(swap) && e.data == Encode(swap) && TradeOf(e.data) == Some((isBuy, hop.pool))
    ensures FillOfEvent(ctx, r, hop, isBuy, e) == SwapFill(ctx, r, hop, swap, e.pos)
  {
    EncodedEventRead(swap, Sol);
    var currency := Eligible(ctx, hop.pool, hop.base, hop.quote);
    if currency.Some? {
      EncodedEventRead(swap, currency.value);
    }
  }

  lemma {:induction false} EncodeTail(trades: seq<Emitted>, swaps: seq<TradeEvent>)
    requires EncodeAll(trades, swaps) && swaps != []
    ensures EncodeAll(trades[1..], swaps[1..]) && WellFormed(swaps[0]) && trades[0].data == Encode(swaps[0])
  {
  }

  /** Read from events that encode swaps, a route's fills are those of its swaps. */
  lemma {:induction false} RouteFillsOfSwaps(ctx: Context, r: Route, isPool: seq<bool>, sides: seq<bool>, at: nat,
                                             trades: seq<Emitted>, swaps: seq<TradeEvent>)
    requires |isPool| == |sides| == |r.hops| && Executes(r.hops, isPool, sides, at, trades)
    requires EncodeAll(trades, swaps)
    ensures RouteFills(ctx, r, isPool, sides, at, trades) == SwapFills(ctx, r, isPool, at, swaps, trades)
    decreases |r.hops| - at
  {
    if swaps != [] && at < |r.hops| && !isPool[at] {
      RouteFillsOfSwaps(ctx, r, isPool, sides, at + 1, trades, swaps);
    } else if swaps != [] && at < |r.hops| {
      ExecutesStep(r.hops, isPool, sides, at, trades);
      RouteFillsStep(ctx, r, isPool, sides, at, trades);
      EncodeTail(trades, swaps);
      OwnFillOfSwap(ctx, r, r.hops[at], sides[at], trades[0], swaps[0]);
      RouteFillsOfSwaps(ctx, r, isPool, sides, at + 1, trades[1..], swaps[1..]);
    }
  }

  lemma {:induction false} FailedMatchesRoute(ctx: Context, r: Route, sides: seq<bool>, i: nat, amountIn: u64,
                                              minOut: u64)
    requires |sides| == |r.hops|
    ensures Shapes(FailedFills(ctx, r, sides, i, amountIn, minOut)) == RouteShapes(ctx, r, sides, i)
    decreases |r.hops| - i
  {
    if i < |r.hops| {
      var own := FailedFill(ctx, r, i, sides[i], amountIn, minOut);
      FailedStep(ctx, r, sides, i, amountIn, minOut);
      RouteShapesStep(ctx, r, sides, i);
      FailedMatchesRoute(ctx, r, sides, i + 1, amountIn, minOut);
      ShapesOfCons(own, FailedFills(ctx, r, sides, i + 1, amountIn, minOut));
      FailedShape(ctx, r, i, sides[i], amountIn, minOut);
    }
  }

  lemma {:induction false} FailedStep(ctx: Context, r: Route, sides: seq<bool>, i: nat, amountIn: u64, minOut: u64)
    requires |sides| == |r.hops| && i < |r.hops|
    ensures FailedFills(ctx, r, sides, i, amountIn, minOut)
         == FailedFill(ctx, r, i, sides[i], amountIn, minOut) + FailedFills(ctx, r, sides, i + 1, amountIn, minOut)
  {
  }

  lemma {:induction false} FailedShape(ctx: Context, r: Route, i: nat, isBuy: bool, amountIn: u64, minOut: u64)
    requires i < |r.hops|
    ensures Shapes(FailedFill(ctx, r, i, isBuy, amountIn, minOut)) == HopShape(ctx, r, isBuy, r.hops[i])
    ensures |FailedFill(ctx, r, i, isBuy, amountIn, minOut)| <= 1
  {
    var own := FailedFill(ctx, r, i, isBuy, amountIn, minOut);
    assert own != [] ==> own[1..] == [];
  }

  /** The trade events among the immediate children of the call. */
  function ChildTrades(call: Call, tops: seq<Node>): seq<Emitted>
    requires call.outer < |tops| && call.start <= Size(tops[call.outer].children)
  {
    TradesOf(RootEvents(Called(tops, call.outer, call.start).children, call.start, call.ix.program))
  }

  /** The call executed as a route from `input`: its immediate children hold, among any other
      events, one trade event per pool hop, in order. */
  ghost predicate ExecutedAsRoute(ctx: Context, tx: Tx, call: Call, tops: seq<Node>, isPool: seq<bool>, input: Key) {
    && tx.success && Recorded(tx.blocks, tops)
    && call.outer < |tops| && call.start <= Size(tops[call.outer].children)
    && var hops := SwapHops(call.ix, tx.accounts);
    && |isPool| == |hops| && CurvesApart(ctx, hops, isPool) && Sides(hops, input).Some?
    && Executes(hops, isPool, Sides(hops, input).value, 0, ChildTrades(call, tops))
  }

  /** A successful route is recorded as it executed: per eligible pool hop one fill with that
      hop's side and tag and its own event's amounts and position. */
  lemma {:induction false} ExecutedRouteRecorded(ctx: Context, tx: Tx, call: Call, tops: seq<Node>, isPool: seq<bool>,
                                                 input: Key)
    requires ExecutedAsRoute(ctx, tx, call, tops, isPool, input)
    ensures var r := RouteOf(tx, call);
            MultiHopFills(ctx, tx, call)
            == RouteFills(ctx, r, isPool, Sides(r.hops, input).value, 0, ChildTrades(call, tops))
  {
    var r := RouteOf(tx, call);
    DirectChildEventsAreChildren(tx.blocks, tops, call.outer, call.start, call.ix.program);
    GreedyMatchesRoute(ctx, r, isPool, Sides(r.hops, input).value, EventsOfCall(tx, call));
  }

  /** When the events encode the swaps that executed, the fills hold what the swaps traded and
      the reserves they left behind. */
  lemma {:induction false} ExecutedSwapsRecorded(ctx: Context, tx: Tx, call: Call, tops: seq<Node>, isPool: seq<bool>,
                                                 input: Key, swaps: seq<TradeEvent>)
    requires ExecutedAsRoute(ctx, tx, call, tops, isPool, input)
    requires EncodeAll(ChildTrades(call, tops), swaps)
    ensures MultiHopFills(ctx, tx, call)
         == SwapFills(ctx, RouteOf(tx, call), isPool, 0, swaps, ChildTrades(call, tops))
  {
    var r := RouteOf(tx, call);
    ExecutedRouteRecorded(ctx, tx, call, tops, isPool, input);
    RouteFillsOfSwaps(ctx, r, isPool, Sides(r.hops, input).value, 0, ChildTrades(call, tops), swaps);
  }

  /** For every chaining route of pool and curve hops, decoding its successful execution and
      decoding its failed attempt give the same pools, mints, sides and routed tags. */
  lemma {:induction false} RouteDecodersAgree(ctx: Context, tx: Tx, failed: Tx, call: Call, tops: seq<Node>,
                                              isPool: seq<bool>, input: Key)
    requires ExecutedAsRoute(ctx, tx, call, tops, isPool, input)
    requires !failed.success && failed.accounts == tx.accounts
    requires Ambiguous(SwapHops(call.ix, tx.accounts)) ==> SpentRowMint(call.ix, failed.preBalances) == Some(input)
    ensures Shapes(MultiHopFills(ctx, tx, call)) == Shapes(MultiHopFills(ctx, failed, call))
    ensures var r := RouteOf(tx, call);
            Shapes(MultiHopFills(ctx, tx, call)) == RouteShapes(ctx, r, Sides(r.hops, input).value, 0)
  {
    var r := RouteOf(tx, call);
    var sides := Sides(r.hops, input).value;
    ExecutedRouteRecorded(ctx, tx, call, tops, isPool, input);
    ExecutedShapes(ctx, r, isPool, sides, 0, ChildTrades(call, tops));
    InputMintOfChain(call.ix, failed.preBalances, r.hops, input);
    var (amountIn, minOut) := RequestedAmounts(call.ix.data, false);
    FailedMatchesRoute(ctx, r, sides, 0, amountIn, minOut);
  }

  // ----- requested amounts are conserved -----

  function Total(fills: seq<Fill>): nat {
    if fills == [] then 0 else fills[0].amounts.token + fills[0].amounts.quote + Total(fills[1..])
  }

  predicate HopEligible(ctx: Context, hop: Hop) {
    Eligible(ctx, hop.pool, hop.base, hop.quote).Some?
  }

  /** What the fills from hop `i` on are to carry. */
  function RequestedFrom(ctx: Context, hops: seq<Hop>, i: nat, amountIn: u64, minOut: u64): nat
    requires i < |hops|
  {
    (if i == 0 && HopEligible(ctx, hops[0]) then amountIn else 0)
    + (if HopEligible(ctx, hops[|hops| - 1]) then minOut else 0)
  }

  function RequestedOwn(ctx: Context, hops: seq<Hop>, i: nat, amountIn: u64, minOut: u64): nat
    requires i < |hops|
  {
    if !HopEligible(ctx, hops[i]) then 0
    else (if i == 0 then amountIn else 0) + if i + 1 == |hops| then minOut else 0
  }

  lemma {:induction false} OwnAndRest(ctx: Context, hops: seq<Hop>, i: nat, amountIn: u64, minOut: u64)
    requires i < |hops|
    ensures RequestedFrom(ctx, hops, i, amountIn, minOut)
         == RequestedOwn(ctx, hops, i, amountIn, minOut)
            + if i + 1 < |hops| then RequestedFrom(ctx, hops, i + 1, amountIn, minOut) else 0
  {
  }

  /** Over all fills of a failed route the amounts add up to the requested input, when the
      first hop is recorded, plus the requested output, when the last one is. */
  lemma {:induction false} RequestedTotal(ctx: Context, r: Route, sides: seq<bool>, i: nat, amountIn: u64, minOut: u64)
    requires |sides| == |r.hops| && i < |r.hops|
    ensures Total(FailedFills(ctx, r, sides, i, amountIn, minOut))
         == RequestedFrom(ctx, r.hops, i, amountIn, minOut)
    decreases |r.hops| - i
  {
    TotalStep(ctx, r, sides, i, amountIn, minOut);
    OwnTotal(ctx, r, i, sides[i], amountIn, minOut);
    OwnAndRest(ctx, r.hops, i, amountIn, minOut);
    if i + 1 < |r.hops| {
      RequestedTotal(ctx, r, sides, i + 1, amountIn, minOut);
    } else {
      assert FailedFills(ctx, r, sides, i + 1, amountIn, minOut) == [];
    }
  }

  lemma {:induction false} TotalStep(ctx: Context, r: Route, sides: seq<bool>, i: nat, amountIn: u64, minOut: u64)
    requires |sides| == |r.hops| && i < |r.hops|
    ensures Total(FailedFills(ctx, r, sides, i, amountIn, minOut))
         == Total(FailedFill(ctx, r, i, sides[i], amountIn, minOut))
            + Total(FailedFills(ctx, r, sides, i + 1, amountIn, minOut))
  {
    FailedStep(ctx, r, sides, i, amountIn, minOut);
    OwnTotal(ctx, r, i, sides[i], amountIn, minOut);
    TotalAppend(FailedFill(ctx, r, i, sides[i], amountIn, minOut), FailedFills(ctx, r, sides, i + 1, amountIn, minOut));
  }

  lemma {:induction false} TotalAppend(own: seq<Fill>, rest: seq<Fill>)
    requires |own| <= 1
    ensures Total(own + rest) == Total(own) + Total(rest)
  {
    if own == [] {
      assert own + rest == rest;
    } else {
      assert (own + rest)[1..] == rest && own[1..] == [];
    }
  }

  lemma {:induction false} OwnTotal(ctx: Context, r: Route, i: nat, isBuy: bool, amountIn: u64, minOut: u64)
    requires i < |r.hops|
    ensures var own := FailedFill(ctx, r, i, isBuy, amountIn, minOut);
            && |own| <= 1
            && Total(own) == RequestedOwn(ctx, r.hops, i, amountIn, minOut)
  {
    var own := FailedFill(ctx, r, i, isBuy, amountIn, minOut);
    assert own != [] ==> own[1..] == [];
  }

  /** The fill of hop `i` of `hops`: the input amount on the first hop's input side, the output
      amount on the last hop's output side, nothing elsewhere. */
  predicate CarriesRequest(f: Fill, i: nat, hops: nat, isBuy: bool, amountIn: u64, minOut: u64) {
    var input, output := if isBuy then f.amounts.quote else f.amounts.token,
                         if isBuy then f.amounts.token else f.amounts.quote;
    && f.isBuy == isBuy
    && input == (if i == 0 then amountIn else 0)
    && output == (if i == hops - 1 then minOut else 0)
    && f.amounts.marketCap == None && f.amounts.baseReserves == f.amounts.quoteReserves == 0
    && f.source == InstructionRequest
  }

  /** The positions of the eligible hops from `i` on. */
  function EligibleHops(ctx: Context, hops: seq<Hop>, i: nat): (r: seq<nat>)
    ensures forall k :: 0 <= k < |r| ==> r[k] < |hops|
    decreases |hops| - i
  {
    if i >= |hops| then [] else (if HopEligible(ctx, hops[i]) then [i] else []) + EligibleHops(ctx, hops, i + 1)
  }

  /** The fills of a failed route are those of its eligible hops, in order, each with what it was to
      carry; a recorded hop does not take over the amount of one that is not. */
  lemma {:induction false} RequestedByHop(ctx: Context, r: Route, sides: seq<bool>, i: nat, amountIn: u64, minOut: u64)
    requires |sides| == |r.hops| && i <= |r.hops|
    ensures var fills, hops := FailedFills(ctx, r, sides, i, amountIn, minOut), EligibleHops(ctx, r.hops, i);
            && |fills| == |hops|
            && forall k :: 0 <= k < |fills| ==>
                 CarriesRequest(fills[k], hops[k], |r.hops|, sides[hops[k]], amountIn, minOut)
    decreases |r.hops| - i
  {
    if i < |r.hops| {
      RequestedByHop(ctx, r, sides, i + 1, amountIn, minOut);
      FailedStep(ctx, r, sides, i, amountIn, minOut);
      OwnCarries(ctx, r, i, sides[i], amountIn, minOut);
    }
  }

  lemma {:induction false} OwnCarries(ctx: Context, r: Route, i: nat, isBuy: bool, amountIn: u64, minOut: u64)
    requires i < |r.hops|
    ensures var own := FailedFill(ctx, r, i, isBuy, amountIn, minOut);
            if HopEligible(ctx, r.hops[i])
            then |own| == 1 && CarriesRequest(own[0], i, |r.hops|, isBuy, amountIn, minOut) else own == []
  {
  }

  /** With every hop recorded, fill k belongs to hop k. */
  lemma {:induction false} RequestedPlacement(ctx: Context, r: Route, sides: seq<bool>, i: nat, amountIn: u64,
                                              minOut: u64)
    requires |sides| == |r.hops| && i <= |r.hops|
    requires forall h :: h in r.hops ==> HopEligible(ctx, h)
    ensures var fills := FailedFills(ctx, r, sides, i, amountIn, minOut);
            && |fills| == |r.hops| - i
            && forall k :: 0 <= k < |fills| ==>
                 CarriesRequest(fills[k], i + k, |r.hops|, sides[i + k], amountIn, minOut)
    decreases |r.hops| - i
  {
    if i < |r.hops| {
      assert r.hops[i] in r.hops;
      RequestedPlacement(ctx, r, sides, i + 1, amountIn, minOut);
      var fills := FailedFills(ctx, r, sides, i, amountIn, minOut);
      var rest := FailedFills(ctx, r, sides, i + 1, amountIn, minOut);
      forall k | 0 <= k < |fills| ensures CarriesRequest(fills[k], i + k, |r.hops|, sides[i + k], amountIn, minOut) {
        assert k > 0 ==> fills[k] == rest[k - 1];
      }
    }
  }

  // ----- no event is counted twice -----

  ghost predicate Ascending(events: seq<Emitted>) {
    forall i, j :: 0 <= i < j < |events| ==> events[i].pos < events[j].pos
  }

  ghost predicate ReadFrom(f: Fill, outer: nat, events: seq<Emitted>) {
    f.source.FromEvent? ==> f.source.outer == outer && exists e :: e in events && e.pos == f.source.pos
  }

  ghost predicate SourcesDistinct(fills: seq<Fill>) {
    forall i, j :: 0 <= i < j < |fills| && fills[i].source.FromEvent? ==> fills[i].source != fills[j].source
  }

  lemma {:induction false} SuccessSources(ctx: Context, r: Route, next: nat, events: seq<Emitted>)
    requires next <= |r.hops| && Ascending(events)
    ensures var fills := SuccessFills(ctx, r, next, events);
            && (forall f :: f in fills ==> ReadFrom(f, r.outer, events))
            && SourcesDistinct(fills)
    decreases events
  {
    if events != [] {
      var m := MatchEvent(ctx, r, next, events[0]);
      SuccessSources(ctx, r, m.next, events[1..]);
      var rest := SuccessFills(ctx, r, m.next, events[1..]);
      forall f | f in rest ensures ReadFrom(f, r.outer, events) && f.source != FromEvent(r.outer, events[0].pos) {
        assert ReadFrom(f, r.outer, events[1..]);
      }
    }
  }

  lemma {:induction false} FailedSources(ctx: Context, r: Route, sides: seq<bool>, i: nat, amountIn: u64, minOut: u64)
    requires |sides| == |r.hops|
    ensures forall f :: f in FailedFills(ctx, r, sides, i, amountIn, minOut) ==> f.source.InstructionRequest?
    decreases |r.hops| - i
  {
    if i < |r.hops| {
      FailedSources(ctx, r, sides, i + 1, amountIn, minOut);
    }
  }

  lemma {:induction false} EventsAscend(tx: Tx, call: Call)
    ensures Ascending(EventsOfCall(tx, call))
  {
    var s := FindBlock(tx.blocks, call.outer);
    var stack := TradeStack(s, call.start);
    forall i, j | 0 <= i < j < |EventsOfCall(tx, call)|
      ensures EventsOfCall(tx, call)[i].pos < EventsOfCall(tx, call)[j].pos
    {
      ScanAscends(s, call.start, stack, call.ix.program, i, j);
    }
  }

  lemma {:induction false} RouteSources(ctx: Context, tx: Tx, call: Call)
    ensures forall f :: f in MultiHopFills(ctx, tx, call) ==> ReadFrom(f, call.outer, EventsOfCall(tx, call))
    ensures SourcesDistinct(MultiHopFills(ctx, tx, call))
  {
    var r := RouteOf(tx, call);
    EventsAscend(tx, call);
    SuccessSources(ctx, r, 0, EventsOfCall(tx, call));
    var input := InputMint(call.ix, tx.preBalances, r.hops);
    var sides := if input.Some? then Sides(r.hops, input.value) else None;
    if sides.Some? {
      var (amountIn, minOut) := RequestedAmounts(call.ix.data, false);
      FailedSources(ctx, r, sides.value, 0, amountIn, minOut);
    }
  }

  lemma {:induction false} SingleSources(ctx: Context, tx: Tx, call: Call, kind: TradeIx)
    ensures |SingleFills(ctx, tx, call, kind)| <= 1
    ensures forall f :: f in SingleFills(ctx, tx, call, kind) ==> ReadFrom(f, call.outer, EventsOfCall(tx, call))
  {
  }

  lemma {:induction false} CallSources(ctx: Context, tx: Tx, call: Call)
    ensures forall f :: f in FillsOfCall(ctx, tx, call) ==> ReadFrom(f, call.outer, EventsOfCall(tx, call))
    ensures SourcesDistinct(FillsOfCall(ctx, tx, call))
  {
    RouteSources(ctx, tx, call);
    if |call.ix.data| >= 8 && PumpSwapTradeIx(call.ix.data[..8]).Some? {
      SingleSources(ctx, tx, call, PumpSwapTradeIx(call.ix.data[..8]).value);
    }
  }

  ghost predicate CallsApart(a: Call, b: Call) {
    a.outer != b.outer || a.start != b.start
  }

  ghost predicate CallsDistinct(calls: seq<Call>) {
    forall i, j :: 0 <= i < j < |calls| ==> CallsApart(calls[i], calls[j])
  }

  ghost predicate WellRecorded(blocks: seq<Block>) {
    && IndexesDistinct(blocks)
    && (forall b :: b in blocks ==> HeightsPresent(b.instrs))
  }

  lemma {:induction false} CallsShareNothing(tx: Tx, a: Call, b: Call, f: Fill, g: Fill)
    requires WellRecorded(tx.blocks) && CallsApart(a, b)
    requires ReadFrom(f, a.outer, EventsOfCall(tx, a)) && ReadFrom(g, b.outer, EventsOfCall(tx, b))
    requires f.source.FromEvent?
    ensures f.source != g.source
  {
    if g.source.FromEvent? && a.outer == b.outer {
      var ea :| ea in EventsOfCall(tx, a) && ea.pos == f.source.pos;
      var eb :| eb in EventsOfCall(tx, b) && eb.pos == g.source.pos;
      var s := FindBlock(tx.blocks, a.outer);
      assert HeightsPresent(s);
      if a.start < b.start {
        OneCallPerEvent(s, a.start, b.start, a.ix.program, b.ix.program, ea, eb);
      } else {
        OneCallPerEvent(s, b.start, a.start, b.ix.program, a.ix.program, eb, ea);
      }
    }
  }

  lemma {:induction false} CallsSources(ctx: Context, tx: Tx, calls: seq<Call>, c: Call)
    requires WellRecorded(tx.blocks) && CallsDistinct(calls)
    requires forall k :: 0 <= k < |calls| ==> CallsApart(c, calls[k])
    ensures SourcesDistinct(FillsOfCalls(ctx, tx, calls))
    ensures forall f, g :: f in FillsOfCall(ctx, tx, c) && f.source.FromEvent? && g in FillsOfCalls(ctx, tx, calls)
              ==> f.source != g.source
  {
    if calls != [] {
      var own, rest := FillsOfCall(ctx, tx, calls[0]), FillsOfCalls(ctx, tx, calls[1..]);
      CallsSources(ctx, tx, calls[1..], calls[0]);
      CallsSources(ctx, tx, calls[1..], c);
      CallSources(ctx, tx, calls[0]);
      CallSources(ctx, tx, c);
      forall f, g | f in FillsOfCall(ctx, tx, c) && f.source.FromEvent? && g in own
        ensures f.source != g.source
      {
        CallsShareNothing(tx, c, calls[0], f, g);
      }
    }
  }

  lemma {:induction false} CallsDistinctAppend(a: seq<Call>, b: seq<Call>)
    requires CallsDistinct(a) && CallsDistinct(b)
    requires forall x, y :: x in a && y in b ==> CallsApart(x, y)
    ensures CallsDistinct(a + b)
  {
    var all := a + b;
    forall i, j | 0 <= i < j < |all| ensures CallsApart(all[i], all[j]) {
      if i < |a| <= j {
        assert all[i] in a && all[j] in b;
      }
    }
  }

  lemma {:induction false} TopCallsDistinct(instrs: seq<Ix>, at: nat, program: nat)
    ensures CallsDistinct(TopCalls(instrs, at, program))
    ensures forall c :: c in TopCalls(instrs, at, program) ==> c.start == 0 && c.outer >= at
    decreases |instrs| - at
  {
    if at < |instrs| {
      TopCallsDistinct(instrs, at + 1, program);
    }
  }

  lemma {:induction false} BlockCallsDistinct(b: Block, at: nat, program: nat)
    ensures CallsDistinct(BlockCalls(b, at, program))
    ensures forall c :: c in BlockCalls(b, at, program) ==> c.outer == b.index && c.start > at
    decreases |b.instrs| - at
  {
    if at < |b.instrs| {
      BlockCallsDistinct(b, at + 1, program);
    }
  }

  lemma {:induction false} InnerCallsDistinct(blocks: seq<Block>, at: nat, program: nat)
    requires IndexesDistinct(blocks)
    ensures CallsDistinct(InnerCalls(blocks, at, program))
    ensures forall c :: c in InnerCalls(blocks, at, program) ==>
              c.start > 0 && exists k :: at <= k < |blocks| && blocks[k].index == c.outer
    decreases |blocks| - at
  {
    if at < |blocks| {
      BlockCallsDistinct(blocks[at], 0, program);
      InnerCallsDistinct(blocks, at + 1, program);
      CallsDistinctAppend(BlockCalls(blocks[at], 0, program), InnerCalls(blocks, at + 1, program));
    }
  }

  /** Whatever routes, single trades and routers a transaction nests, two records never read
      the same inner instruction: no fill is counted twice. */
  lemma {:induction false} NoEventCountedTwice(ctx: Context, tx: Tx)
    requires WellRecorded(tx.blocks)
    ensures SourcesDistinct(Fills(ctx, tx))
  {
    var index := ProgramIndex(tx.accounts, ctx.program);
    if index.Some? {
      TopCallsDistinct(tx.instrs, 0, index.value);
      InnerCallsDistinct(tx.blocks, 0, index.value);
      CallsDistinctAppend(TopCalls(tx.instrs, 0, index.value), InnerCalls(tx.blocks, 0, index.value));
      var calls := ProgramCalls(tx, ctx.program);
      if calls != [] {
        CallsSources(ctx, tx, calls[1..], calls[0]);
        CallSources(ctx, tx, calls[0]);
      }
    }
  }
}
