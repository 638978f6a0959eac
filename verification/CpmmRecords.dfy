/** What the constant-product handler's records mean: which swaps are accepted, by account and by
    key, and what each of the four sources of amounts puts into a record. */
module CpmmRecords {
  import opened Prelude
  import opened Bytes
  import opened Routes
  import opened Cpmm
  import opened CpmmHandler
  import opened CpmmProperties
  import Amm = AmmHandler
  import AmmRecords

  // ----- accepted swaps -----

  ghost predicate AccountIs(tx: Amm.Tx, call: Call, position: nat, key: Key) {
    && position < |call.ix.accounts| && call.ix.accounts[position] < |tx.accounts|
    && tx.accounts[call.ix.accounts[position]] == key
  }

  /** A swap instruction of the pool under this configuration, from `input` to `output`. */
  ghost predicate SwapOf(tx: Amm.Tx, call: Call, config: Key, pool: Key, input: Key, output: Key) {
    && |call.ix.data| >= 8 && (call.ix.data[..8] == BASE_INPUT_DISC || call.ix.data[..8] == BASE_OUTPUT_DISC)
    && |call.ix.accounts| >= 13
    && AccountIs(tx, call, 2, config) && AccountIs(tx, call, 3, pool)
    && AccountIs(tx, call, 10, input) && AccountIs(tx, call, 11, output)
  }

  /** `a` comes before `b` in byte order: at the first difference it has the smaller byte. */
  ghost predicate Lower(a: seq<byte>, b: seq<byte>)
    requires |a| == |b|
  {
    exists i :: LowerAt(a, b, i)
  }

  ghost predicate LowerAt(a: seq<byte>, b: seq<byte>, i: nat)
    requires |a| == |b|
  {
    i < |a| && a[i] < b[i] && a[..i] == b[..i]
  }

  lemma {:induction false} LexIsLower(a: seq<byte>, b: seq<byte>)
    requires |a| == |b|
    ensures LexLess(a, b) <==> Lower(a, b)
  {
    if a != [] {
      LexIsLower(a[1..], b[1..]);
      forall i | 0 < i <= |a| && a[..i] == b[..i] ensures a[0] == b[0] {
        assert a[0] == a[..i][0] && b[0] == b[..i][0];
      }
      if a[0] < b[0] {
        assert LowerAt(a, b, 0);
      } else if a[0] == b[0] {
        if i: nat :| LowerAt(a[1..], b[1..], i) {
          assert a[..i + 1] == [a[0]] + a[1..][..i] && b[..i + 1] == [b[0]] + b[1..][..i];
          assert LowerAt(a, b, i + 1);
        }
        if i: nat :| LowerAt(a, b, i) {
          assert i > 0;
          assert a[1..][..i - 1] == a[..i][1..] && b[1..][..i - 1] == b[..i][1..];
          assert LowerAt(a[1..], b[1..], i - 1);
        }
      }
    }
  }

  /** The derived pool of a pair of mints, which are taken in byte order. */
  ghost function PairPool(ctx: Context, a: Key, b: Key): Key {
    if Lower(a, b) then ctx.canonical(a, b) else ctx.canonical(b, a)
  }

  lemma {:induction false} PairPoolIsCanonical(ctx: Context, a: Key, b: Key)
    requires a != b
    ensures CanonicalPool(ctx, a, b) == CanonicalPool(ctx, b, a) == PairPool(ctx, a, b)
  {
    LexIsLower(a, b);
    LexOneWay(a, b);
  }

  /** The migration pool of a tracked launch: derived from its mints, or recorded for it. */
  ghost predicate LaunchPool(ctx: Context, pool: Key, mint: Key, quoteMint: Key) {
    && mint in ctx.mints && quoteMint !in ctx.mints && ctx.mints[mint].quoteMint == quoteMint
    && (pool == PairPool(ctx, mint, quoteMint) || ctx.mints[mint].pool == Some(pool))
  }

  /** Every swap of a launch's pool, in either direction, is accepted under its launch. */
  lemma {:induction false} LaunchSwapAccepted(ctx: Context, tx: Amm.Tx, call: Call, pool: Key, mint: Key,
                                              quoteMint: Key, sells: bool)
    requires SwapOf(tx, call, ctx.config, pool, if sells then mint else quoteMint, if sells then quoteMint else mint)
    requires LaunchPool(ctx, pool, mint, quoteMint)
    ensures Accept(ctx, tx, call)
         == Some(Accepted(pool, if sells then mint else quoteMint, if sells then quoteMint else mint, mint, quoteMint,
                          sells, ctx.mints[mint]))
  {
    PairPoolIsCanonical(ctx, mint, quoteMint);
  }

  /** Nothing else is accepted. */
  lemma {:induction false} AcceptedIsLaunchSwap(ctx: Context, tx: Amm.Tx, call: Call)
    requires Accept(ctx, tx, call).Some?
    ensures var a := Accept(ctx, tx, call).value;
            && SwapOf(tx, call, ctx.config, a.pool, a.inputMint, a.outputMint)
            && LaunchPool(ctx, a.pool, a.mint, a.quoteMint)
            && a.inputMint == (if a.baseIsInput then a.mint else a.quoteMint)
            && a.outputMint == (if a.baseIsInput then a.quoteMint else a.mint)
            && a.info == ctx.mints[a.mint]
  {
    var a := Accept(ctx, tx, call).value;
    PairPoolIsCanonical(ctx, a.inputMint, a.outputMint);
    PairPoolIsCanonical(ctx, a.outputMint, a.inputMint);
  }

  /** Whatever the log says, every fill is of the migration pool of a launch tracked when its
      instruction was looked at. */
  lemma {:induction false} OnlyLaunchesRecorded(seen: seq<Context>, t: CpmmTx, calls: seq<Call>, events: seq<SwapEvent>)
    requires |seen| == |calls|
    ensures forall f :: f in AltFills(seen, t, calls, events) ==>
              exists k :: 0 <= k < |seen| && LaunchPool(seen[k], f.pool, f.mint, f.quoteMint)
    decreases calls
  {
    if calls != [] {
      var accepted := Accept(seen[0], t.tx, calls[0]);
      var rest := if accepted.None? then events else Remaining(events, accepted.value.pool);
      OnlyLaunchesRecorded(seen[1..], t, calls[1..], rest);
      forall f | f in AltFills(seen, t, calls, events)
        ensures exists k :: 0 <= k < |seen| && LaunchPool(seen[k], f.pool, f.mint, f.quoteMint)
      {
        if f in AltFills(seen[1..], t, calls[1..], rest) {
          var k :| 0 <= k < |seen| - 1 && LaunchPool(seen[1..][k], f.pool, f.mint, f.quoteMint);
          assert seen[k + 1] == seen[1..][k];
        } else {
          AcceptedIsLaunchSwap(seen[0], t.tx, calls[0]);
          assert LaunchPool(seen[0], f.pool, f.mint, f.quoteMint);
        }
      }
    }
  }

  // ----- records from an event -----

  /** The record of a swap with event `e`, seen from the tracked mint. */
  function EventFill(call: Call, pool: Key, mint: Key, quoteMint: Key, supply: u64, e: SwapEvent, source: Source)
    : AltFill
    requires |call.ix.data| >= 8
  {
    var buys := e.outputMint == mint;
    var arrived := e.inputVaultBefore + e.inputAmount;
    var inAfter := if arrived <= U64_MAX then arrived else U64_MAX;
    var outAfter := if e.outputVaultBefore >= e.outputAmount then e.outputVaultBefore - e.outputAmount else 0;
    var base, quote := if buys then outAfter else inAfter, if buys then inAfter else outAfter;
    AltFill(pool, mint, quoteMint, call.ix.data[0] == 143, source, call.start > 0, buys,
            if buys then e.outputAmount else e.inputAmount, if buys then e.inputAmount else e.outputAmount,
            Some(if base == 0 then 0 else Clamp(quote * supply / base, 0, U64_MAX)), Some((base, quote)),
            Some((if buys then e.outputTransferFee else e.inputTransferFee, e.tradeFee, e.creatorFee)))
  }

  /** An accepted swap of the pool, the transaction having succeeded. */
  ghost predicate Executed(ctx: Context, t: CpmmTx, call: Call, pool: Key, mint: Key, quoteMint: Key, sells: bool) {
    && t.tx.success && LaunchPool(ctx, pool, mint, quoteMint)
    && SwapOf(t.tx, call, ctx.config, pool, if sells then mint else quoteMint, if sells then quoteMint else mint)
  }

  /** The event moves the two mints, in either direction. */
  ghost predicate Moves(e: SwapEvent, mint: Key, quoteMint: Key) {
    (e.inputMint == mint && e.outputMint == quoteMint) || (e.inputMint == quoteMint && e.outputMint == mint)
  }

  lemma {:induction false} DirectionRead(data: seq<byte>)
    requires |data| >= 8 && (data[..8] == BASE_INPUT_DISC || data[..8] == BASE_OUTPUT_DISC)
    ensures data[..8] == BASE_INPUT_DISC <==> data[0] == 143
  {
    assert data[0] == data[..8][0];
  }

  lemma {:induction false} FillOfEventIs(t: CpmmTx, call: Call, a: Accepted, logged: Option<SwapEvent>, e: SwapEvent,
                                         source: Source)
    requires |call.ix.data| >= 8 && (call.ix.data[..8] == BASE_INPUT_DISC || call.ix.data[..8] == BASE_OUTPUT_DISC)
    requires EventOfSwap(t, call, a, logged) == Some((e, source)) && Moves(e, a.mint, a.quoteMint)
    requires a.mint != a.quoteMint
    ensures FillOf(t, call, a, logged) == EventFill(call, a.pool, a.mint, a.quoteMint, a.info.supply, e, source)
  {
    DirectionRead(call.ix.data);
    SideIs(e, a.mint);
  }

  /** The side of an event that moves the mint, in one piece. */
  lemma {:induction false} SideIs(e: SwapEvent, mint: Key)
    requires e.inputMint != e.outputMint && mint in {e.inputMint, e.outputMint}
    ensures var arrived, left := e.inputVaultBefore + e.inputAmount, e.outputVaultBefore - e.outputAmount;
            var inAfter, outAfter := if arrived <= U64_MAX then arrived else U64_MAX, if left >= 0 then left else 0;
            ResolveSide(e, mint)
            == Some(if e.outputMint == mint
                    then SwapSide(true, e.outputAmount, e.inputAmount, outAfter, inAfter, e.outputTransferFee)
                    else SwapSide(false, e.inputAmount, e.outputAmount, inAfter, outAfter, e.inputTransferFee))
  {
    SideOfEvent(e, mint);
  }

  /** An executed swap that takes a logged event is recorded with that event's amounts, reserves,
      fees and cap. */
  lemma {:induction false} RecordedFromLog(ctx: Context, t: CpmmTx, call: Call, pool: Key, mint: Key, quoteMint: Key,
                                           sells: bool, e: SwapEvent)
    requires Executed(ctx, t, call, pool, mint, quoteMint, sells) && Moves(e, mint, quoteMint)
    ensures Accept(ctx, t.tx, call).Some?
    ensures FillOf(t, call, Accept(ctx, t.tx, call).value, Some(e))
         == EventFill(call, pool, mint, quoteMint, ctx.mints[mint].supply, e, FromLog)
  {
    LaunchSwapAccepted(ctx, t.tx, call, pool, mint, quoteMint, sells);
    FillOfEventIs(t, call, Accept(ctx, t.tx, call).value, Some(e), e, FromLog);
  }

  /** Without a logged event, the first event it emitted itself decides. */
  lemma {:induction false} RecordedFromSelfCpi(ctx: Context, t: CpmmTx, call: Call, pool: Key, mint: Key,
                                               quoteMint: Key, sells: bool, e: SwapEvent, k: nat)
    requires Executed(ctx, t, call, pool, mint, quoteMint, sells) && Moves(e, mint, quoteMint)
    requires AmmRecords.FirstOf(Amm.EventsOfCall(t.tx, call), k)
    requires Amm.EventsOfCall(t.tx, call)[k].data == SWAP_EVENT_DISC + Body(e)
    ensures Accept(ctx, t.tx, call).Some?
    ensures FillOf(t, call, Accept(ctx, t.tx, call).value, None)
         == EventFill(call, pool, mint, quoteMint, ctx.mints[mint].supply, e, FromSelfCpi)
  {
    var events := Amm.EventsOfCall(t.tx, call);
    assert events[k].data[..8] == SWAP_EVENT_DISC;
    AmmRecords.FirstFound(events, k);
    ParseRoundTrip(e, []);
    LaunchSwapAccepted(ctx, t.tx, call, pool, mint, quoteMint, sells);
    FillOfEventIs(t, call, Accept(ctx, t.tx, call).value, None, e, FromSelfCpi);
  }

  /** The event of moving `x` into and `y` out of vaults that held `inBefore` and `outBefore`. */
  function MovedEvent(pool: Key, inBefore: u64, outBefore: u64, x: u64, y: u64, input: Key, output: Key): SwapEvent {
    SwapEvent(pool, inBefore, outBefore, x, y, 0, 0, true, input, output, 0, 0, false)
  }

  /** Vault `account` held `before` and then `after`. */
  ghost predicate WentFrom(t: CpmmTx, account: nat, before: u64, after: u64) {
    AmountOf(t.pre, account) == Some(before) && AmountOf(t.post, account) == Some(after)
  }

  /** Without either, what moved through the two vaults. */
  lemma {:induction false} RecordedFromVaults(ctx: Context, t: CpmmTx, call: Call, pool: Key, mint: Key,
                                              quoteMint: Key, sells: bool, inBefore: u64, outBefore: u64, x: u64,
                                              y: u64)
    requires Executed(ctx, t, call, pool, mint, quoteMint, sells) && SelfCpiEvent(t.tx, call) == None
    requires x > 0 && y > 0 && inBefore + x <= U64_MAX && y <= outBefore
    requires call.ix.accounts[6] < |t.tx.accounts| && call.ix.accounts[7] < |t.tx.accounts|
    requires WentFrom(t, call.ix.accounts[6], inBefore, inBefore + x)
    requires WentFrom(t, call.ix.accounts[7], outBefore, outBefore - y)
    ensures Accept(ctx, t.tx, call).Some?
    ensures FillOf(t, call, Accept(ctx, t.tx, call).value, None)
         == EventFill(call, pool, mint, quoteMint, ctx.mints[mint].supply,
                      MovedEvent(pool, inBefore, outBefore, x, y, if sells then mint else quoteMint,
                                 if sells then quoteMint else mint), FromVaults)
  {
    LaunchSwapAccepted(ctx, t.tx, call, pool, mint, quoteMint, sells);
    var a := Accept(ctx, t.tx, call).value;
    var e := MovedEvent(pool, inBefore, outBefore, x, y, a.inputMint, a.outputMint);
    assert VaultEvent(t, call, a) == Some(e);
    FillOfEventIs(t, call, a, None, e, FromVaults);
  }

  /** A vault that is not among the accounts leaves nothing to rebuild from. */
  lemma {:induction false} VaultsMustExist(t: CpmmTx, call: Call, a: Accepted)
    requires |call.ix.accounts| <= 7 || call.ix.accounts[6] >= |t.tx.accounts| || call.ix.accounts[7] >= |t.tx.accounts|
    ensures VaultEvent(t, call, a) == None
  {
  }

  // ----- records from the instruction -----

  function RequestFill(call: Call, pool: Key, mint: Key, quoteMint: Key, sells: bool, input: u64, output: u64): AltFill
    requires |call.ix.data| >= 8
  {
    AltFill(pool, mint, quoteMint, call.ix.data[0] == 143, InstructionRequest, call.start > 0, !sells,
            if sells then input else output, if sells then output else input, None, None, None)
  }

  /** A failed swap, or one no event of which is left, is recorded with the two amounts it asked for,
      the first of which is the input's; cut off arguments count as nothing. */
  lemma {:induction false} RecordedFromRequest(ctx: Context, t: CpmmTx, call: Call, pool: Key, mint: Key,
                                               quoteMint: Key, sells: bool, disc: seq<byte>, arg0: u64, arg1: u64,
                                               rest: seq<byte>)
    requires LaunchPool(ctx, pool, mint, quoteMint)
    requires SwapOf(t.tx, call, ctx.config, pool, if sells then mint else quoteMint, if sells then quoteMint else mint)
    requires |disc| == 8
    requires || call.ix.data == disc + (LeBytes(arg0, 8) + (LeBytes(arg1, 8) + rest))
             || (|call.ix.data| < 24 && arg0 == arg1 == 0)
    requires Accept(ctx, t.tx, call).Some? ==> EventOfSwap(t, call, Accept(ctx, t.tx, call).value, None) == None
    ensures Accept(ctx, t.tx, call).Some?
    ensures FillOf(t, call, Accept(ctx, t.tx, call).value, None)
         == RequestFill(call, pool, mint, quoteMint, sells, arg0, arg1)
  {
    LaunchSwapAccepted(ctx, t.tx, call, pool, mint, quoteMint, sells);
    DirectionRead(call.ix.data);
    if |call.ix.data| >= 24 {
      AmmRecords.ArgumentsRead(disc, arg0, arg1, rest, false);
    }
  }

  /** A failed transaction has no event to record from. */
  lemma {:induction false} FailedHasNoEvent(t: CpmmTx, call: Call, a: Accepted, logged: Option<SwapEvent>)
    requires !t.tx.success && |call.ix.data| >= 8
    ensures EventOfSwap(t, call, a, logged) == None
    ensures FillOf(t, call, a, logged) == FillOf(t, call, a, None)
  {
  }
}
