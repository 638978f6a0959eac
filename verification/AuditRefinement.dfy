/** The audit decoder and the collector's handler reconstruct the same trades. */
module AuditRefinement {
  import opened Prelude
  import opened Bytes
  import opened CallTree
  import opened PumpEvents
  import opened Routes
  import opened AmmHandler
  import opened CoverageAudit
  import AmmProperties

  /** The fields the audit compares, in order, so that the position is the index. */
  datatype Summary = Summary(pool: Key, mint: Key, quoteMint: Key, kind: Kind, isCpi: bool, user: Option<Key>,
                             isBuy: bool, token: Option<u64>, quote: Option<u64>, executed: bool)

  /** The routed tag of an executed route is the one field the two sides judge differently. */
  function ComparedKind(kind: Kind, executed: bool): Kind {
    if executed && kind.MultiHopRouted? then MultiHop else kind
  }

  /** The script's production filter. */
  predicate Qualifies(ctx: Context, row: Row) {
    && row.mint != Some(ctx.wsol) && row.quoteMint.Some?
    && row.mint.Some? && row.mint.value in ctx.whitelist
    && row.pool == Some(ctx.canonical(row.mint.value, row.quoteMint.value))
  }

  function Expected(ctx: Context, row: Row): seq<Summary> {
    if !Qualifies(ctx, row) then []
    else [Summary(row.pool.value, row.mint.value, row.quoteMint.value, ComparedKind(row.kind, row.executed), row.isCpi,
                  row.user, row.isBuy, row.token, row.quote, row.executed)]
  }

  function ExpectedAll(ctx: Context, rows: seq<Row>): seq<Summary> {
    if rows == [] then [] else Expected(ctx, rows[0]) + ExpectedAll(ctx, rows[1..])
  }

  function Stored(f: Fill): Summary {
    var executed := f.source.FromEvent?;
    Summary(f.pool, f.mint, f.quoteMint, ComparedKind(f.kind, executed), f.isCpi, f.user, f.isBuy,
            Some(f.amounts.token), Some(f.amounts.quote), executed)
  }

  function StoredAll(fills: seq<Fill>): seq<Summary> {
    if fills == [] then [] else [Stored(fills[0])] + StoredAll(fills[1..])
  }

  lemma {:induction false} ExpectedAppend(ctx: Context, a: seq<Row>, b: seq<Row>)
    ensures ExpectedAll(ctx, a + b) == ExpectedAll(ctx, a) + ExpectedAll(ctx, b)
  {
    if a == [] {
      assert a + b == b;
    } else {
      assert (a + b)[0] == a[0] && (a + b)[1..] == a[1..] + b;
      ExpectedAppend(ctx, a[1..], b);
    }
  }

  lemma {:induction false} StoredAppend(a: seq<Fill>, b: seq<Fill>)
    ensures StoredAll(a + b) == StoredAll(a) + StoredAll(b)
  {
    if a == [] {
      assert a + b == b;
    } else {
      assert (a + b)[0] == a[0] && (a + b)[1..] == a[1..] + b;
      StoredAppend(a[1..], b);
    }
  }

  lemma {:induction false} ExpectedOne(ctx: Context, row: Row)
    ensures ExpectedAll(ctx, [row]) == Expected(ctx, row)
  {
    assert [row][1..] == [];
  }

  lemma {:induction false} StoredOne(f: Fill)
    ensures StoredAll([f]) == [Stored(f)]
  {
    assert [f][1..] == [];
  }

  // ----- the two scans read the same events -----

  lemma {:induction false} LastBlockIsOnly(blocks: seq<Block>, outer: nat)
    requires IndexesDistinct(blocks)
    ensures forall b :: b in blocks && b.index == outer ==> b.instrs == BlockOf(blocks, outer)
    ensures HasBlock(blocks, outer) || BlockOf(blocks, outer) == []
  {
    if blocks != [] {
      var last := blocks[|blocks| - 1];
      var init := blocks[..|blocks| - 1];
      if last.index == outer {
        assert last in blocks;
      } else {
        LastBlockIsOnly(init, outer);
        forall b | b in blocks && b.index == outer ensures b in init {
          var k :| 0 <= k < |blocks| && blocks[k] == b;
          assert init[k] == b;
        }
        if HasBlock(init, outer) {
          var b :| b in init && b.index == outer;
          assert b in blocks;
        }
      }
    }
  }

  lemma {:induction false} SameBlock(blocks: seq<Block>, outer: nat)
    requires IndexesDistinct(blocks)
    ensures BlockOf(blocks, outer) == FindBlock(blocks, outer)
  {
    LastBlockIsOnly(blocks, outer);
    FindBlockFinds(blocks, outer, BlockOf(blocks, outer));
  }

  lemma {:induction false} FindEventAfter(own: seq<Emitted>, tail: seq<Emitted>, disc: seq<byte>)
    requires |own| <= 1
    ensures FindEvent(own + tail, disc)
         == if own != [] && own[0].data[..8] == disc then Some(own[0]) else FindEvent(tail, disc)
  {
    if own == [] {
      assert own + tail == tail;
    } else {
      assert (own + tail)[0] == own[0] && (own + tail)[1..] == tail;
    }
  }

  lemma {:induction false} SameCandidateStep(i: Inner, pos: nat, stack: nat, program: nat, disc: seq<byte>)
    requires |disc| == 8
    ensures var own := OwnEvent(i, pos, stack, program);
            var hit := !SkippedCandidate(i, stack, program) && Slice(i.ix.data, 8, 16) == disc;
            && |own| <= 1 && (hit <==> own != [] && own[0].data[..8] == disc)
            && (hit ==> own[0].data == From8(i.ix.data))
  {
    if |i.ix.data| >= 16 {
      assert i.ix.data[8..][..8] == i.ix.data[8..16];
    }
  }

  lemma {:induction false} SameCandidate(s: seq<Inner>, pos: nat, stack: nat, program: nat, disc: seq<byte>)
    requires |disc| == 8
    ensures var found := FindEvent(Scan(s, pos, stack, program), disc);
            CandidateEvent(s, pos, stack, program, disc) == if found.Some? then Some(found.value.data) else None
    decreases |s| - pos
  {
    if pos < |s| && Deeper(s[pos], stack) {
      SameCandidate(s, pos + 1, stack, program, disc);
      SameCandidateStep(s[pos], pos, stack, program, disc);
      FindEventAfter(OwnEvent(s[pos], pos, stack, program), Scan(s, pos + 1, stack, program), disc);
    }
  }

  // ----- single-pool trades -----

  lemma {:induction false} SameTable(disc: seq<byte>)
    ensures var kind := PumpSwapTradeIx(disc);
            && (kind.None? <==> Discriminators(disc).None?)
            && (kind.Some? ==>
                  && Discriminators(disc) == Some((kind.value.name, kind.value.isBuy))
                  && kind.value.eventDisc == EventDiscriminator(kind.value.name)
                  && kind.value.exactIn == ExactIn(kind.value.name)
                  && (kind.value.eventDisc == BOOST_EVENT_DISC <==> kind.value.name == "boost_buy_and_burn"))
  {
    assert BUY_EVENT_DISC[0] != BOOST_EVENT_DISC[0] && SELL_EVENT_DISC[0] != BOOST_EVENT_DISC[0];
  }

  /** Every trade event is at least as long as the fields both sides read. */
  ghost predicate FullEvents(events: seq<Emitted>) {
    forall e :: e in events && e.data[..8] in {BUY_EVENT_DISC, SELL_EVENT_DISC, BOOST_EVENT_DISC} ==> |e.data| >= 200
  }

  lemma {:induction false} FoundEvent(events: seq<Emitted>, disc: seq<byte>)
    ensures FindEvent(events, disc).Some? ==> FindEvent(events, disc).value.data[..8] == disc
  {
    if events != [] {
      FoundEvent(events[1..], disc);
    }
  }

  lemma {:induction false} SameEventFields(data: seq<byte>, kind: TradeIx, currency: QuoteCurrency)
    requires |data| >= 200
    requires kind.eventDisc == BOOST_EVENT_DISC <==> kind.name == "boost_buy_and_burn"
    ensures var amounts := EventAmounts(data, kind.eventDisc, kind.isBuy, currency);
            && amounts.Some?
            && EventFields(data, kind.name, kind.isBuy) == (Some(amounts.value.token), Some(amounts.value.quote))
  {
  }

  /** The script's row of a single trade holds the amounts the handler takes, and the same source. */
  lemma {:induction false} SameAmounts(tx: Tx, call: Call, stack: nat, kind: TradeIx, currency: QuoteCurrency)
    requires IndexesDistinct(tx.blocks) && |call.ix.data| >= 24
    requires PumpSwapTradeIx(call.ix.data[..8]) == Some(kind)
    requires stack == TradeStack(FindBlock(tx.blocks, call.outer), call.start)
    requires tx.success ==> FullEvents(EventsOfCall(tx, call))
    ensures var row := SingleRow(tx, call, stack, kind.name, kind.isBuy);
            var executed := ExecutedAmounts(tx, call, kind, currency);
            && row.token == Some(executed.amounts.token) && row.quote == Some(executed.amounts.quote)
            && (row.executed <==> executed.source.FromEvent?)
  {
    SameTable(call.ix.data[..8]);
    SameBlock(tx.blocks, call.outer);
    var found := FindEvent(EventsOfCall(tx, call), kind.eventDisc);
    SameCandidate(FindBlock(tx.blocks, call.outer), call.start, stack, call.ix.program, kind.eventDisc);
    FoundEvent(EventsOfCall(tx, call), kind.eventDisc);
    if tx.success && found.Some? {
      SameEventFields(found.value.data, kind, currency);
    }
  }

  lemma {:induction false} SingleTradesAgree(ctx: Context, tx: Tx, call: Call, stack: nat, kind: TradeIx)
    requires !ctx.readonly && IndexesDistinct(tx.blocks) && |call.ix.data| >= 24
    requires PumpSwapTradeIx(call.ix.data[..8]) == Some(kind)
    requires stack == TradeStack(FindBlock(tx.blocks, call.outer), call.start)
    requires tx.success ==> FullEvents(EventsOfCall(tx, call))
    ensures Expected(ctx, SingleRow(tx, call, stack, kind.name, kind.isBuy))
         == StoredAll(SingleFills(ctx, tx, call, kind))
  {
    forall currency {
      SameAmounts(tx, call, stack, kind, currency);
    }
    var fills := SingleFills(ctx, tx, call, kind);
    if fills != [] {
      StoredOne(fills[0]);
    }
  }

  /** Arguments cut off after the first one: the script still reads it, the handler takes both as
      nothing. On a failed trade they agree exactly when there is nothing to read or it is zero. */
  lemma {:induction false} CutRequestsAgreeIff(tx: Tx, call: Call, stack: nat, kind: TradeIx, currency: QuoteCurrency)
    requires !tx.success && 8 <= |call.ix.data| < 24 && PumpSwapTradeIx(call.ix.data[..8]) == Some(kind)
    ensures var row := SingleRow(tx, call, stack, kind.name, kind.isBuy);
            var executed := ExecutedAmounts(tx, call, kind, currency);
            (row.token == Some(executed.amounts.token) && row.quote == Some(executed.amounts.quote)
             <==> |call.ix.data| < 16 || U64At(call.ix.data, 8) == Some(0))
  {
    SameTable(call.ix.data[..8]);
  }

  // ----- routes -----

  lemma {:induction false} SameHops(ix: Ix, accounts: seq<seq<byte>>, at: nat)
    requires Resolvable(ix, accounts)
    ensures AuditHops(ix, accounts, at) == HopsFrom(ix, accounts, at)
    decreases |ix.accounts| - at
  {
    if at + 5 <= |ix.accounts| {
      SameHops(ix, accounts, at + 5);
    }
  }

  lemma {:induction false} SameMatch(hops: seq<Hop>, next: nat, pool: seq<byte>)
    requires next <= |hops|
    ensures var i := if |pool| == 32 then FindHop(hops, next, pool) else |hops|;
            MatchHop(hops, next, pool) == if i == |hops| then None else Some(i)
    decreases |hops| - next
  {
    if next < |hops| {
      SameMatch(hops, next + 1, pool);
    }
  }

  /** A candidate's side and pool are those the handler reads, or its pool is cut short. */
  lemma {:induction false} SameTrade(i: Inner, pos: nat, stack: nat, program: nat)
    ensures var own := OwnEvent(i, pos, stack, program);
            var trade := CandidateTrade(i, stack, program);
            && (own == [] ==> trade.None?)
            && (own != [] ==>
                  && own == [Emitted(pos, From8(i.ix.data))]
                  && (TradeOf(own[0].data).Some? ==> trade == Some(TradeOf(own[0].data).value))
                  && (TradeOf(own[0].data).None? && trade.Some? ==> |trade.value.1| != 32))
  {
    var event := From8(i.ix.data);
    if |event| >= 8 {
      assert Slice(event, 0, 8) == event[..8];
    }
    if |event| >= 152 {
      assert Slice(event, 120, 152) == event[120..152];
    }
  }

  lemma {:induction false} SameEventRow(ctx: Context, r: Route, call: Call, hop: Hop, e: Emitted, still: Key -> bool)
    requires !ctx.readonly && TradeOf(e.data).Some?
    requires r.outer == call.outer && r.isCpi == (call.start > 0)
    ensures var isBuy := TradeOf(e.data).value.0;
            ExpectedAll(ctx, [EventRow(call, r.user, hop, isBuy, still, e.data)])
            == StoredAll(FillOfEvent(ctx, r, hop, isBuy, e))
  {
    assert BUY_EVENT_DISC[0] != BOOST_EVENT_DISC[0] && SELL_EVENT_DISC[0] != BOOST_EVENT_DISC[0];
    ExpectedOne(ctx, EventRow(call, r.user, hop, TradeOf(e.data).value.0, still, e.data));
    forall f {
      StoredOne(f);
    }
  }

  /** One inner instruction: both sides move to the same hop and add the same record. */
  lemma {:induction false} SameStep(ctx: Context, r: Route, call: Call, i: Inner, pos: nat, stack: nat, next: nat,
                                    still: Key -> bool)
    requires !ctx.readonly && next <= |r.hops|
    requires r.outer == call.outer && r.isCpi == (call.start > 0)
    ensures var own := OwnEvent(i, pos, stack, call.ix.program);
            var found := SearchCandidate(call, r.user, r.hops, i, stack, next, still);
            && |own| <= 1 && next <= found.next <= |r.hops|
            && found.next == (if own == [] then next else MatchEvent(ctx, r, next, own[0]).next)
            && ExpectedAll(ctx, found.rows)
               == StoredAll(if own == [] then [] else MatchEvent(ctx, r, next, own[0]).fills)
  {
    SameTrade(i, pos, stack, call.ix.program);
    var trade := CandidateTrade(i, stack, call.ix.program);
    if trade.Some? {
      SameMatch(r.hops, next, trade.value.1);
      var found := MatchHop(r.hops, next, trade.value.1);
      if found.Some? {
        SameEventRow(ctx, r, call, r.hops[found.value], OwnEvent(i, pos, stack, call.ix.program)[0], still);
      }
    }
  }

  lemma {:induction false} SuccessAfter(ctx: Context, r: Route, next: nat, own: seq<Emitted>, tail: seq<Emitted>)
    requires next <= |r.hops| && |own| <= 1
    ensures var m := if own == [] then Matched([], next) else MatchEvent(ctx, r, next, own[0]);
            SuccessFills(ctx, r, next, own + tail) == m.fills + SuccessFills(ctx, r, m.next, tail)
  {
    if own == [] {
      assert own + tail == tail;
    } else {
      assert (own + tail)[0] == own[0] && (own + tail)[1..] == tail;
    }
  }

  lemma {:induction false} RoutesAgree(ctx: Context, r: Route, call: Call, s: seq<Inner>, pos: nat, stack: nat,
                                       next: nat, still: Key -> bool)
    requires !ctx.readonly && next <= |r.hops|
    requires r.outer == call.outer && r.isCpi == (call.start > 0)
    ensures ExpectedAll(ctx, RouteRows(call, r.user, r.hops, s, pos, stack, next, still))
         == StoredAll(SuccessFills(ctx, r, next, Scan(s, pos, stack, call.ix.program)))
    decreases |s| - pos
  {
    if pos < |s| && Deeper(s[pos], stack) {
      var own, tail := OwnEvent(s[pos], pos, stack, call.ix.program), Scan(s, pos + 1, stack, call.ix.program);
      var found := SearchCandidate(call, r.user, r.hops, s[pos], stack, next, still);
      SameStep(ctx, r, call, s[pos], pos, stack, next, still);
      RoutesAgree(ctx, r, call, s, pos + 1, stack, found.next, still);
      SuccessAfter(ctx, r, next, own, tail);
      ExpectedAppend(ctx, found.rows, RouteRows(call, r.user, r.hops, s, pos + 1, stack, found.next, still));
      StoredAppend(if own == [] then [] else MatchEvent(ctx, r, next, own[0]).fills,
                   SuccessFills(ctx, r, found.next, tail));
    }
  }

  lemma {:induction false} SameFailedRow(ctx: Context, r: Route, call: Call, hop: Hop, isBuy: bool, amounts: Amounts)
    requires !ctx.readonly && r.isCpi == (call.start > 0)
    ensures var row := HopRow(call, r.user, hop, isBuy, IsRouted(r.hops, hop.base, isBuy),
                              Some(amounts.token), Some(amounts.quote), false);
            Expected(ctx, row) == if Eligible(ctx, hop.pool, hop.base, hop.quote).None? then []
                                  else [Stored(HopFill(r, hop, isBuy, amounts, InstructionRequest))]
  {
  }

  lemma {:induction false} FailedRoutesAgree(ctx: Context, r: Route, call: Call, current: Key, sides: seq<bool>,
                                             i: nat, amountIn: u64, minOut: u64)
    requires !ctx.readonly && r.isCpi == (call.start > 0) && |sides| == |r.hops| && i <= |r.hops|
    requires Sides(r.hops[i..], current) == Some(sides[i..])
    ensures ExpectedAll(ctx, FailedRouteRows(call, r.user, r.hops, Some(current), i, amountIn, minOut))
         == StoredAll(FailedFills(ctx, r, sides, i, amountIn, minOut))
    decreases |r.hops| - i
  {
    if i < |r.hops| {
      var hop := r.hops[i];
      assert r.hops[i..][0] == hop && r.hops[i..][1..] == r.hops[i + 1..];
      var Passed(isBuy, passed) := Feed(hop, current);
      assert sides[i..][0] == isBuy;
      assert Sides(r.hops[i + 1..], passed).value == sides[i..][1..] == sides[i + 1..];
      var amounts := RequestedAt(|r.hops|, i, isBuy, amountIn, minOut);
      var row := HopRow(call, r.user, hop, isBuy, IsRouted(r.hops, hop.base, isBuy),
                        Some(amounts.token), Some(amounts.quote), false);
      var own := FailedFill(ctx, r, i, isBuy, amountIn, minOut);
      FailedRoutesAgree(ctx, r, call, passed, sides, i + 1, amountIn, minOut);
      SameFailedRow(ctx, r, call, hop, isBuy, amounts);
      ExpectedOne(ctx, row);
      ExpectedAppend(ctx, [row], FailedRouteRows(call, r.user, r.hops, Some(passed), i + 1, amountIn, minOut));
      StoredOne(HopFill(r, hop, isBuy, amounts, InstructionRequest));
      StoredAppend(own, FailedFills(ctx, r, sides, i + 1, amountIn, minOut));
    }
  }

  /** A failed route chains from the mint named by the spent account's balance row. */
  predicate SpentRowChains(tx: Tx, call: Call) {
    var spent := SpentRowMint(call.ix, tx.preBalances);
    spent.Some? && Sides(SwapHops(call.ix, tx.accounts), spent.value).Some?
  }

  lemma {:induction false} SuccessfulRoutesAgree(ctx: Context, tx: Tx, call: Call, stack: nat, still: Key -> bool)
    requires !ctx.readonly && IndexesDistinct(tx.blocks) && Resolvable(call.ix, tx.accounts) && tx.success
    requires stack == TradeStack(FindBlock(tx.blocks, call.outer), call.start)
    ensures ExpectedAll(ctx, MultiHopRows(tx, call, stack, still)) == StoredAll(MultiHopFills(ctx, tx, call))
  {
    SameHops(call.ix, tx.accounts, 16);
    SameBlock(tx.blocks, call.outer);
    RoutesAgree(ctx, RouteOf(tx, call), call, FindBlock(tx.blocks, call.outer), call.start, stack, 0, still);
  }

  // ----- failed routes, exactly -----

  /** How many hops the audit passes from the spent mint before one does not chain. */
  function HopsPassed(hops: seq<Hop>, current: Option<Key>): (n: nat)
    ensures n <= |hops|
  {
    if hops == [] || current.None? || Feed(hops[0], current.value).Broken? then 0
    else 1 + HopsPassed(hops[1..], Some(Feed(hops[0], current.value).next))
  }

  predicate NoneEligible(ctx: Context, hops: seq<Hop>) {
    forall h :: h in hops ==> Eligible(ctx, h.pool, h.base, h.quote).None?
  }

  /** The audit keeps the rows of the hops it passed. */
  lemma {:induction false} AuditKeepsPassed(ctx: Context, call: Call, user: Option<Key>, hops: seq<Hop>,
                                            current: Option<Key>, i: nat, amountIn: u64, minOut: u64)
    requires !ctx.readonly && i <= |hops|
    ensures ExpectedAll(ctx, FailedRouteRows(call, user, hops, current, i, amountIn, minOut)) == []
       <==> NoneEligible(ctx, hops[i..][..HopsPassed(hops[i..], current)])
    decreases |hops| - i
  {
    var rest := hops[i..];
    if i < |hops| && current.Some? && !Feed(hops[i], current.value).Broken? {
      var next := Some(Feed(hops[i], current.value).next);
      assert rest[1..] == hops[i + 1..];
      AuditKeepsPassed(ctx, call, user, hops, next, i + 1, amountIn, minOut);
      HeadEligible(ctx, rest, HopsPassed(rest, current));
      AuditRowOfHop(ctx, call, user, hops, current.value, i, amountIn, minOut);
    }
  }

  lemma {:induction false} HeadEligible(ctx: Context, hops: seq<Hop>, n: nat)
    requires 0 < n <= |hops|
    ensures NoneEligible(ctx, hops[..n])
       <==> Eligible(ctx, hops[0].pool, hops[0].base, hops[0].quote).None? && NoneEligible(ctx, hops[1..][..n - 1])
  {
    assert hops[..n] == [hops[0]] + hops[1..][..n - 1];
  }

  /** The row the audit writes for hop `i`, spending `current`. */
  function FailedRow(call: Call, user: Option<Key>, hops: seq<Hop>, current: Key, i: nat, amountIn: u64,
                     minOut: u64): Row
    requires i < |hops| && !Feed(hops[i], current).Broken?
  {
    var isBuy := Feed(hops[i], current).isBuy;
    var amounts := RequestedAt(|hops|, i, isBuy, amountIn, minOut);
    HopRow(call, user, hops[i], isBuy, IsRouted(hops, hops[i].base, isBuy),
           Some(amounts.token), Some(amounts.quote), false)
  }

  lemma {:induction false} RowExpected(ctx: Context, row: Row, hop: Hop)
    requires !ctx.readonly
    requires row.pool == Some(hop.pool) && row.mint == Some(hop.base) && row.quoteMint == Some(hop.quote)
    ensures Eligible(ctx, hop.pool, hop.base, hop.quote).None? ==> Expected(ctx, row) == []
    ensures Eligible(ctx, hop.pool, hop.base, hop.quote).Some? ==>
              |Expected(ctx, row)| == 1 && Expected(ctx, row)[0].isBuy == row.isBuy
  {
  }

  lemma {:induction false} AuditRowOfHop(ctx: Context, call: Call, user: Option<Key>, hops: seq<Hop>, current: Key,
                                         i: nat, amountIn: u64, minOut: u64)
    requires !ctx.readonly && i < |hops| && !Feed(hops[i], current).Broken?
    ensures var hop, fed := hops[i], Feed(hops[i], current);
            var own := ExpectedAll(ctx, FailedRouteRows(call, user, hops, Some(current), i, amountIn, minOut));
            var rest := ExpectedAll(ctx, FailedRouteRows(call, user, hops, Some(fed.next), i + 1, amountIn, minOut));
            if Eligible(ctx, hop.pool, hop.base, hop.quote).None? then own == rest
            else own != [] && own[0].isBuy == fed.isBuy
  {
    var row := FailedRow(call, user, hops, current, i, amountIn, minOut);
    var rest := FailedRouteRows(call, user, hops, Some(Feed(hops[i], current).next), i + 1, amountIn, minOut);
    assert FailedRouteRows(call, user, hops, Some(current), i, amountIn, minOut) == [row] + rest;
    RowExpected(ctx, row, hops[i]);
    ExpectedOne(ctx, row);
    ExpectedAppend(ctx, [row], rest);
  }

  /** The handler records every eligible hop of a chaining route, or nothing. */
  lemma {:induction false} HandlerKeepsAll(ctx: Context, r: Route, sides: seq<bool>, i: nat, amountIn: u64, minOut: u64)
    requires |sides| == |r.hops| && i <= |r.hops|
    ensures StoredAll(FailedFills(ctx, r, sides, i, amountIn, minOut)) == [] <==> NoneEligible(ctx, r.hops[i..])
    ensures i < |r.hops| && Eligible(ctx, r.hops[i].pool, r.hops[i].base, r.hops[i].quote).Some? ==>
              var stored := StoredAll(FailedFills(ctx, r, sides, i, amountIn, minOut));
              stored != [] && stored[0].isBuy == sides[i]
    decreases |r.hops| - i
  {
    if i < |r.hops| {
      HandlerKeepsAll(ctx, r, sides, i + 1, amountIn, minOut);
      assert r.hops[i..] == [r.hops[i]] + r.hops[i + 1..];
      StoredAppend(FailedFill(ctx, r, i, sides[i], amountIn, minOut),
                   FailedFills(ctx, r, sides, i + 1, amountIn, minOut));
    }
  }

  /** When the spent row does not chain but the handler reads another input mint off the hops,
      the audit passes at most the first hop, on the opposite side. */
  lemma {:induction false} RowAgainstHops(ix: Ix, preBalances: seq<BalanceRow>, hops: seq<Hop>, row: Key, input: Key)
    requires SpentRowMint(ix, preBalances) == Some(row) && Sides(hops, row).None?
    requires InputMint(ix, preBalances, hops) == Some(input) && Sides(hops, input).Some?
    ensures HopsPassed(hops, Some(row)) <= 1
    ensures HopsPassed(hops, Some(row)) == 1 ==> hops != [] && Feed(hops[0], row).isBuy != Sides(hops, input).value[0]
  {
    if hops != [] && !Feed(hops[0], row).Broken? {
      var next := Feed(hops[0], row).next;
      assert hops[1..][0] == hops[1];
      assert Feed(hops[1], next).Broken?;
    }
  }

  /** What the handler makes of a failed route: nothing unless the mint it takes for the input
      chains through every hop. */
  predicate HandlerRecordsNothing(ctx: Context, tx: Tx, call: Call) {
    var hops := SwapHops(call.ix, tx.accounts);
    var input := InputMint(call.ix, tx.preBalances, hops);
    input.None? || Sides(hops, input.value).None? || NoneEligible(ctx, hops)
  }

  predicate AuditRecordsNothing(ctx: Context, tx: Tx, call: Call) {
    var hops := SwapHops(call.ix, tx.accounts);
    NoneEligible(ctx, hops[..HopsPassed(hops, SpentRowMint(call.ix, tx.preBalances))])
  }

  lemma {:induction false} FailedRowsEmptyIff(ctx: Context, tx: Tx, call: Call, stack: nat, still: Key -> bool)
    requires !ctx.readonly && Resolvable(call.ix, tx.accounts) && !tx.success
    ensures ExpectedAll(ctx, MultiHopRows(tx, call, stack, still)) == [] <==> AuditRecordsNothing(ctx, tx, call)
    ensures StoredAll(MultiHopFills(ctx, tx, call)) == [] <==> HandlerRecordsNothing(ctx, tx, call)
  {
    var r := RouteOf(tx, call);
    SameHops(call.ix, tx.accounts, 16);
    assert r.hops[0..] == r.hops;
    var in0, out0 := ZeroIfMissing(U64At(call.ix.data, 8)), ZeroIfMissing(U64At(call.ix.data, 16));
    AuditKeepsPassed(ctx, call, r.user, r.hops, SpentRowMint(call.ix, tx.preBalances), 0, in0, out0);
    var input := InputMint(call.ix, tx.preBalances, r.hops);
    if input.Some? && Sides(r.hops, input.value).Some? {
      var (amountIn, minOut) := RequestedAmounts(call.ix.data, false);
      HandlerKeepsAll(ctx, r, Sides(r.hops, input.value).value, 0, amountIn, minOut);
    }
  }

  lemma {:induction false} ChainingRoutesAgree(ctx: Context, tx: Tx, call: Call, stack: nat, still: Key -> bool)
    requires !ctx.readonly && Resolvable(call.ix, tx.accounts) && !tx.success && |call.ix.data| >= 24
    requires SpentRowChains(tx, call)
    ensures ExpectedAll(ctx, MultiHopRows(tx, call, stack, still)) == StoredAll(MultiHopFills(ctx, tx, call))
  {
    var r := RouteOf(tx, call);
    SameHops(call.ix, tx.accounts, 16);
    var spent := SpentRowMint(call.ix, tx.preBalances).value;
    InputMintOfChain(call.ix, tx.preBalances, r.hops, spent);
    var sides := Sides(r.hops, spent).value;
    assert r.hops[0..] == r.hops && sides[0..] == sides;
    var (amountIn, minOut) := RequestedAmounts(call.ix.data, false);
    FailedRoutesAgree(ctx, r, call, spent, sides, 0, amountIn, minOut);
  }

  /** If the spent row does not chain, the first records of the two sides cannot be the same. */
  lemma {:induction false} BrokenRoutesDiffer(ctx: Context, tx: Tx, call: Call, stack: nat, still: Key -> bool)
    requires !ctx.readonly && Resolvable(call.ix, tx.accounts) && !tx.success && !SpentRowChains(tx, call)
    requires !AuditRecordsNothing(ctx, tx, call) && !HandlerRecordsNothing(ctx, tx, call)
    ensures ExpectedAll(ctx, MultiHopRows(tx, call, stack, still)) != StoredAll(MultiHopFills(ctx, tx, call))
  {
    var r := RouteOf(tx, call);
    SameHops(call.ix, tx.accounts, 16);
    var row := SpentRowMint(call.ix, tx.preBalances).value;
    var input := InputMint(call.ix, tx.preBalances, r.hops).value;
    var sides := Sides(r.hops, input).value;
    RowAgainstHops(call.ix, tx.preBalances, r.hops, row, input);
    var first := r.hops[0];
    assert r.hops[..1] == [first];
    assert Eligible(ctx, first.pool, first.base, first.quote).Some?;
    var in0, out0 := ZeroIfMissing(U64At(call.ix.data, 8)), ZeroIfMissing(U64At(call.ix.data, 16));
    AuditRowOfHop(ctx, call, r.user, r.hops, row, 0, in0, out0);
    var (amountIn, minOut) := RequestedAmounts(call.ix.data, false);
    HandlerKeepsAll(ctx, r, sides, 0, amountIn, minOut);
  }

  /** A failed route is decoded alike exactly when it chains from the mint of the spent account's
      row, or neither side records anything of it. */
  predicate FailedRouteAlike(ctx: Context, tx: Tx, call: Call) {
    SpentRowChains(tx, call) || (AuditRecordsNothing(ctx, tx, call) && HandlerRecordsNothing(ctx, tx, call))
  }

  lemma {:induction false} FailedRouteAgreesIff(ctx: Context, tx: Tx, call: Call, stack: nat, still: Key -> bool)
    requires !ctx.readonly && Resolvable(call.ix, tx.accounts) && !tx.success && |call.ix.data| >= 24
    ensures ExpectedAll(ctx, MultiHopRows(tx, call, stack, still)) == StoredAll(MultiHopFills(ctx, tx, call))
       <==> FailedRouteAlike(ctx, tx, call)
  {
    FailedRowsEmptyIff(ctx, tx, call, stack, still);
    if SpentRowChains(tx, call) {
      ChainingRoutesAgree(ctx, tx, call, stack, still);
    } else if !AuditRecordsNothing(ctx, tx, call) && !HandlerRecordsNothing(ctx, tx, call) {
      BrokenRoutesDiffer(ctx, tx, call, stack, still);
    }
  }

  /** A two-hop route whose second hop trades neither mint of the first: the audit keeps a row
      for the first hop, the handler records nothing. */
  lemma {:induction false} BrokenRouteDisagrees(ctx: Context, tx: Tx, call: Call, stack: nat, still: Key -> bool,
                                                first: Hop, second: Hop)
    requires !ctx.readonly && Resolvable(call.ix, tx.accounts) && !tx.success
    requires SwapHops(call.ix, tx.accounts) == [first, second]
    requires SpentRowMint(call.ix, tx.preBalances) == Some(first.quote)
    requires !Trades(second, first.base) && !Trades(second, first.quote)
    requires Eligible(ctx, first.pool, first.base, first.quote).Some?
    ensures ExpectedAll(ctx, MultiHopRows(tx, call, stack, still)) != [] && MultiHopFills(ctx, tx, call) == []
  {
    var hops := [first, second];
    assert hops[1..] == [second];
    assert Sides(hops[1..], first.base) == None;
    FirstTwoEligible(ctx, tx, call, first, second);
    FailedRowsEmptyIff(ctx, tx, call, stack, still);
  }

  /** A two-hop route that turns round at its first pool, with the spent row naming the wrong end:
      the audit keeps one row, the handler takes the input from the hops and records both. */
  lemma {:induction false} WrongRowDisagrees(ctx: Context, tx: Tx, call: Call, stack: nat, still: Key -> bool,
                                             first: Hop, second: Hop)
    requires !ctx.readonly && Resolvable(call.ix, tx.accounts) && !tx.success
    requires SwapHops(call.ix, tx.accounts) == [first, second]
    requires SpentRowMint(call.ix, tx.preBalances) == Some(first.quote)
    requires second.quote == first.quote && second.base != first.base && first.base != first.quote
    requires forall h :: h in [first, second] ==> AmmProperties.HopEligible(ctx, h)
    ensures |MultiHopRows(tx, call, stack, still)| == 1 && |MultiHopFills(ctx, tx, call)| == 2
    ensures ExpectedAll(ctx, MultiHopRows(tx, call, stack, still)) != StoredAll(MultiHopFills(ctx, tx, call))
  {
    var hops := [first, second];
    SameHops(call.ix, tx.accounts, 16);
    TurnRoundInput(call.ix, tx.preBalances, first, second);
    var in0, out0 := ZeroIfMissing(U64At(call.ix.data, 8)), ZeroIfMissing(U64At(call.ix.data, 16));
    assert Feed(second, first.base).Broken?;
    assert FailedRouteRows(call, RouteOf(tx, call).user, hops, Some(first.base), 1, in0, out0) == [];
    var (amountIn, minOut) := RequestedAmounts(call.ix.data, false);
    AmmProperties.RequestedPlacement(ctx, RouteOf(tx, call), [false, true], 0, amountIn, minOut);
    FirstTwoEligible(ctx, tx, call, first, second);
    BrokenRoutesDiffer(ctx, tx, call, stack, still);
  }

  lemma {:induction false} TurnRoundInput(ix: Ix, preBalances: seq<BalanceRow>, first: Hop, second: Hop)
    requires SpentRowMint(ix, preBalances) == Some(first.quote)
    requires second.quote == first.quote && second.base != first.base && first.base != first.quote
    ensures InputMint(ix, preBalances, [first, second]) == Some(first.base)
    ensures Sides([first, second], first.base) == Some([false, true])
    ensures Sides([first, second], first.quote) == None
  {
    var hops := [first, second];
    assert hops[1..] == [second] && hops[1..][1..] == [];
    assert Sides(hops[1..], first.quote) == Some([true]);
    assert Sides(hops[1..], first.base) == None;
    assert [false] + [true] == [false, true];
  }

  lemma {:induction false} FirstTwoEligible(ctx: Context, tx: Tx, call: Call, first: Hop, second: Hop)
    requires SwapHops(call.ix, tx.accounts) == [first, second] && AmmProperties.HopEligible(ctx, first)
    requires SpentRowMint(call.ix, tx.preBalances) == Some(first.quote)
    ensures !AuditRecordsNothing(ctx, tx, call)
    ensures !NoneEligible(ctx, [first, second])
  {
    var hops := [first, second];
    var n := HopsPassed(hops, Some(first.quote));
    assert hops[..n][0] == first && first in hops[..n] && first in hops;
  }

  // ----- the whole transaction -----

  /** What the comparison asks of one instruction of the program: complete arguments where
      they are read, complete events for single trades, failed routes both decode alike. */
  ghost predicate Comparable(ctx: Context, tx: Tx, call: Call) {
    |call.ix.data| >= 8 ==>
      var disc := call.ix.data[..8];
      if disc == MULTI_HOP_SWAP_DISC then !tx.success ==> |call.ix.data| >= 24 && FailedRouteAlike(ctx, tx, call)
      else PumpSwapTradeIx(disc).Some? ==> |call.ix.data| >= 24 && (tx.success ==> FullEvents(EventsOfCall(tx, call)))
  }

  lemma {:induction false} SingleCallAgrees(ctx: Context, tx: Tx, call: Call, stack: nat, still: Key -> bool)
    requires !ctx.readonly && IndexesDistinct(tx.blocks) && Comparable(ctx, tx, call)
    requires Resolvable(call.ix, tx.accounts)
    requires stack == TradeStack(FindBlock(tx.blocks, call.outer), call.start)
    requires |call.ix.data| >= 8 && Slice(call.ix.data, 0, 8) != MULTI_HOP_SWAP_DISC
    ensures ExpectedAll(ctx, InspectRows(tx, call.ix.program, call, stack, still))
         == StoredAll(FillsOfCall(ctx, tx, call))
  {
    SameTable(Slice(call.ix.data, 0, 8));
    var kind := PumpSwapTradeIx(Slice(call.ix.data, 0, 8));
    if kind.Some? {
      SingleTradesAgree(ctx, tx, call, stack, kind.value);
      ExpectedOne(ctx, SingleRow(tx, call, stack, kind.value.name, kind.value.isBuy));
    }
  }

  lemma {:induction false} CallsAgree(ctx: Context, tx: Tx, call: Call, stack: nat, still: Key -> bool)
    requires !ctx.readonly && IndexesDistinct(tx.blocks) && Comparable(ctx, tx, call)
    requires Resolvable(call.ix, tx.accounts)
    requires stack == TradeStack(FindBlock(tx.blocks, call.outer), call.start)
    ensures ExpectedAll(ctx, InspectRows(tx, call.ix.program, call, stack, still))
         == StoredAll(FillsOfCall(ctx, tx, call))
  {
    var disc := Slice(call.ix.data, 0, 8);
    if |call.ix.data| < 8 {
      SameTable(disc);
      assert PumpSwapTradeIx(disc).None?;
    } else if disc == MULTI_HOP_SWAP_DISC {
      if tx.success {
        SuccessfulRoutesAgree(ctx, tx, call, stack, still);
      } else {
        FailedRouteAgreesIff(ctx, tx, call, stack, still);
      }
    } else {
      SingleCallAgrees(ctx, tx, call, stack, still);
    }
  }

  lemma {:induction false} FillsOfAppend(ctx: Context, tx: Tx, a: seq<Call>, b: seq<Call>)
    ensures FillsOfCalls(ctx, tx, a + b) == FillsOfCalls(ctx, tx, a) + FillsOfCalls(ctx, tx, b)
  {
    if a == [] {
      assert a + b == b;
    } else {
      assert (a + b)[0] == a[0] && (a + b)[1..] == a[1..] + b;
      FillsOfAppend(ctx, tx, a[1..], b);
    }
  }

  ghost predicate AllComparable(ctx: Context, tx: Tx, calls: seq<Call>) {
    forall c :: c in calls ==> Comparable(ctx, tx, c)
  }

  lemma {:induction false} ComparableParts(ctx: Context, tx: Tx, a: seq<Call>, b: seq<Call>)
    requires AllComparable(ctx, tx, a + b)
    ensures AllComparable(ctx, tx, a) && AllComparable(ctx, tx, b)
  {
    forall c | c in a || c in b ensures Comparable(ctx, tx, c) {
      assert c in a + b;
    }
  }

  /** What agrees piece by piece agrees as a whole. */
  lemma {:induction false} Joined(ctx: Context, tx: Tx, rowsA: seq<Row>, rowsB: seq<Row>, a: seq<Call>, b: seq<Call>)
    requires ExpectedAll(ctx, rowsA) == StoredAll(FillsOfCalls(ctx, tx, a))
    requires ExpectedAll(ctx, rowsB) == StoredAll(FillsOfCalls(ctx, tx, b))
    ensures ExpectedAll(ctx, rowsA + rowsB) == StoredAll(FillsOfCalls(ctx, tx, a + b))
  {
    ExpectedAppend(ctx, rowsA, rowsB);
    FillsOfAppend(ctx, tx, a, b);
    StoredAppend(FillsOfCalls(ctx, tx, a), FillsOfCalls(ctx, tx, b));
  }

  function OwnCall(call: Call, program: nat): seq<Call> {
    if call.ix.program == program then [call] else []
  }

  lemma {:induction false} FillsOfOne(ctx: Context, tx: Tx, call: Call)
    ensures FillsOfCalls(ctx, tx, [call]) == FillsOfCall(ctx, tx, call)
  {
    assert [call][1..] == [];
  }

  lemma {:induction false} OwnCallAgrees(ctx: Context, tx: Tx, program: nat, call: Call, stack: nat, still: Key -> bool)
    requires !ctx.readonly && IndexesDistinct(tx.blocks) && AllComparable(ctx, tx, OwnCall(call, program))
    requires Resolvable(call.ix, tx.accounts)
    requires stack == TradeStack(FindBlock(tx.blocks, call.outer), call.start)
    ensures ExpectedAll(ctx, InspectRows(tx, program, call, stack, still))
         == StoredAll(FillsOfCalls(ctx, tx, OwnCall(call, program)))
  {
    if call.ix.program == program {
      assert call in OwnCall(call, program);
      CallsAgree(ctx, tx, call, stack, still);
      FillsOfOne(ctx, tx, call);
    }
  }

  lemma {:induction false} TopStep(tx: Tx, program: nat, at: nat, still: Key -> bool)
    requires AllResolvable(tx) && at < |tx.instrs|
    ensures var call := Call(tx.instrs[at], at, 0);
            && Resolvable(call.ix, tx.accounts)
            && TopCalls(tx.instrs, at, program) == OwnCall(call, program) + TopCalls(tx.instrs, at + 1, program)
            && TopRows(tx, program, at, still)
               == InspectRows(tx, program, call, 1, still) + TopRows(tx, program, at + 1, still)
  {
  }

  lemma {:induction false} TopAgree(ctx: Context, tx: Tx, program: nat, at: nat, still: Key -> bool)
    requires !ctx.readonly && IndexesDistinct(tx.blocks) && AllResolvable(tx)
    requires AllComparable(ctx, tx, TopCalls(tx.instrs, at, program))
    ensures ExpectedAll(ctx, TopRows(tx, program, at, still))
         == StoredAll(FillsOfCalls(ctx, tx, TopCalls(tx.instrs, at, program)))
    decreases |tx.instrs| - at
  {
    if at < |tx.instrs| {
      var call, rest := Call(tx.instrs[at], at, 0), TopCalls(tx.instrs, at + 1, program);
      TopStep(tx, program, at, still);
      ComparableParts(ctx, tx, OwnCall(call, program), rest);
      OwnCallAgrees(ctx, tx, program, call, 1, still);
      TopAgree(ctx, tx, program, at + 1, still);
      Joined(ctx, tx, InspectRows(tx, program, call, 1, still), TopRows(tx, program, at + 1, still),
             OwnCall(call, program), rest);
    }
  }

  ghost predicate NoZeroHeight(s: seq<Inner>) {
    forall k :: 0 <= k < |s| ==> s[k].height != Some(0)
  }

  lemma {:induction false} BlockAgree(ctx: Context, tx: Tx, program: nat, k: nat, at: nat, still: Key -> bool)
    requires !ctx.readonly && IndexesDistinct(tx.blocks) && AllResolvable(tx)
    requires k < |tx.blocks| && NoZeroHeight(tx.blocks[k].instrs)
    requires FindBlock(tx.blocks, tx.blocks[k].index) == tx.blocks[k].instrs
    requires AllComparable(ctx, tx, BlockCalls(tx.blocks[k], at, program))
    ensures ExpectedAll(ctx, BlockRows(tx, program, k, at, still))
         == StoredAll(FillsOfCalls(ctx, tx, BlockCalls(tx.blocks[k], at, program)))
    decreases |tx.blocks[k].instrs| - at
  {
    var b := tx.blocks[k];
    if at < |b.instrs| {
      var call, stack := Call(b.instrs[at].ix, b.index, at + 1), HeightOr1(b.instrs[at]);
      var rest := BlockCalls(b, at + 1, program);
      ComparableParts(ctx, tx, OwnCall(call, program), rest);
      OwnCallAgrees(ctx, tx, program, call, stack, still);
      BlockAgree(ctx, tx, program, k, at + 1, still);
      Joined(ctx, tx, InspectRows(tx, program, call, stack, still), BlockRows(tx, program, k, at + 1, still),
             OwnCall(call, program), rest);
    }
  }

  lemma {:induction false} InnerStep(tx: Tx, program: nat, k: nat, still: Key -> bool)
    requires IndexesDistinct(tx.blocks) && AllResolvable(tx) && k < |tx.blocks|
    ensures var b := tx.blocks[k];
            && FindBlock(tx.blocks, b.index) == b.instrs
            && InnerCalls(tx.blocks, k, program)
               == BlockCalls(b, 0, program) + InnerCalls(tx.blocks, k + 1, program)
            && InnerRows(tx, program, k, still)
               == BlockRows(tx, program, k, 0, still) + InnerRows(tx, program, k + 1, still)
  {
    var b := tx.blocks[k];
    assert b in tx.blocks;
    LastBlockIsOnly(tx.blocks, b.index);
    SameBlock(tx.blocks, b.index);
  }

  lemma {:induction false} InnerAgree(ctx: Context, tx: Tx, program: nat, k: nat, still: Key -> bool)
    requires !ctx.readonly && IndexesDistinct(tx.blocks) && AllResolvable(tx)
    requires forall b :: b in tx.blocks ==> NoZeroHeight(b.instrs)
    requires AllComparable(ctx, tx, InnerCalls(tx.blocks, k, program))
    ensures ExpectedAll(ctx, InnerRows(tx, program, k, still))
         == StoredAll(FillsOfCalls(ctx, tx, InnerCalls(tx.blocks, k, program)))
    decreases |tx.blocks| - k
  {
    if k < |tx.blocks| {
      var b := tx.blocks[k];
      var own, rest := BlockCalls(b, 0, program), InnerCalls(tx.blocks, k + 1, program);
      assert b in tx.blocks;
      InnerStep(tx, program, k, still);
      ComparableParts(ctx, tx, own, rest);
      BlockAgree(ctx, tx, program, k, 0, still);
      InnerAgree(ctx, tx, program, k + 1, still);
      Joined(ctx, tx, BlockRows(tx, program, k, 0, still), InnerRows(tx, program, k + 1, still), own, rest);
    }
  }

  /** For every transaction both can read in full, the audit's qualifying rows are exactly
      the collector's records, in the same order. */
  lemma {:induction false} AuditMatchesCollector(ctx: Context, tx: Tx, still: Key -> bool)
    requires !ctx.readonly && ProgramIndex(tx.accounts, ctx.program).Some?
    requires AllResolvable(tx) && IndexesDistinct(tx.blocks)
    requires forall b :: b in tx.blocks ==> NoZeroHeight(b.instrs)
    requires AllComparable(ctx, tx, ProgramCalls(tx, ctx.program))
    ensures ExpectedAll(ctx, AuditRows(tx, ctx.program, still)) == StoredAll(Fills(ctx, tx))
  {
    var index := ProgramIndex(tx.accounts, ctx.program).value;
    var tops, inners := TopCalls(tx.instrs, 0, index), InnerCalls(tx.blocks, 0, index);
    ComparableParts(ctx, tx, tops, inners);
    TopAgree(ctx, tx, index, 0, still);
    InnerAgree(ctx, tx, index, 0, still);
    Joined(ctx, tx, TopRows(tx, index, 0, still), InnerRows(tx, index, 0, still), tops, inners);
  }
}
