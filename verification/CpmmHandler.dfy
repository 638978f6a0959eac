/** The constant-product pool handler: accepted swaps matched to their logged events
    (src/handler/cpmm_handler.rs). */
module CpmmHandler {
  import opened Prelude
  import opened Bytes
  import opened Routes
  import opened Cpmm
  import Amm = AmmHandler

  type Call = Amm.Call

  const BASE_INPUT_DISC: seq<byte> := [143, 190, 90, 218, 196, 30, 51, 222]
  const BASE_OUTPUT_DISC: seq<byte> := [55, 217, 98, 86, 163, 74, 180, 173]
  const MIN_ACCOUNTS: nat := 13
  const AMM_CONFIG_POS: nat := 2
  const POOL_STATE_POS: nat := 3
  const INPUT_VAULT_POS: nat := 6
  const OUTPUT_VAULT_POS: nat := 7
  const INPUT_MINT_POS: nat := 10
  const OUTPUT_MINT_POS: nat := 11

  /** A tracked launch: its quote mint, create-time supply and recorded migration pool. */
  datatype MintInfo = MintInfo(quoteMint: Key, supply: u64, pool: Option<Key>)

  /** `mints` is refreshed while transactions are handled, so every instruction has the context
      that its own lookups find. */
  datatype Context = Context(config: Key, mints: map<Key, MintInfo>, canonical: (Key, Key) -> Key)

  /** The transaction, with the decoded `Program data:` payloads and vault balance rows. */
  datatype CpmmTx = CpmmTx(tx: Amm.Tx, logs: seq<seq<byte>>, pre: seq<AmountRow>, post: seq<AmountRow>)

  // ----- execution order -----

  predicate Before(a: Call, b: Call) {
    a.outer < b.outer || (a.outer == b.outer && a.start < b.start)
  }

  /** `sort_by_key(|(_, outer, inner)| (outer, inner))`, stable. */
  function SortCalls(calls: seq<Call>): seq<Call> {
    if calls == [] then [] else InsertCall(calls[0], SortCalls(calls[1..]))
  }

  function InsertCall(c: Call, sorted: seq<Call>): seq<Call> {
    if sorted == [] || !Before(sorted[0], c) then [c] + sorted else [sorted[0]] + InsertCall(c, sorted[1..])
  }

  // ----- acceptance -----

  datatype Accepted = Accepted(pool: Key, inputMint: Key, outputMint: Key, mint: Key, quoteMint: Key,
                               baseIsInput: bool, info: MintInfo)

  predicate IsSwap(call: Call) {
    |call.ix.data| >= 8 && (call.ix.data[..8] == BASE_INPUT_DISC || call.ix.data[..8] == BASE_OUTPUT_DISC)
  }

  predicate LexLess(a: seq<byte>, b: seq<byte>) {
    b != [] && (a == [] || a[0] < b[0] || (a[0] == b[0] && LexLess(a[1..], b[1..])))
  }

  /** The derived pool of a mint pair, taken in ascending byte order. */
  function CanonicalPool(ctx: Context, a: Key, b: Key): Key {
    if LexLess(a, b) then ctx.canonical(a, b) else ctx.canonical(b, a)
  }

  function Accept(ctx: Context, tx: Amm.Tx, call: Call): Option<Accepted> {
    if !IsSwap(call) || |call.ix.accounts| < MIN_ACCOUNTS then None
    else if ResolveAccount(call.ix, tx.accounts, AMM_CONFIG_POS) != Some(ctx.config) then None
    else
      var pool, input, output := ResolveAccount(call.ix, tx.accounts, POOL_STATE_POS),
        ResolveAccount(call.ix, tx.accounts, INPUT_MINT_POS), ResolveAccount(call.ix, tx.accounts, OUTPUT_MINT_POS);
      if pool.None? || input.None? || output.None? then None
      else if input.value in ctx.mints <==> output.value in ctx.mints then None
      else
        var baseIsInput := input.value in ctx.mints;
        var mint, quoteMint := if baseIsInput then input.value else output.value,
                               if baseIsInput then output.value else input.value;
        var info := ctx.mints[mint];
        if quoteMint != info.quoteMint then None
        else if pool.value != CanonicalPool(ctx, input.value, output.value) && info.pool != pool then None
        else Some(Accepted(pool.value, input.value, output.value, mint, quoteMint, baseIsInput, info))
  }

  // ----- matching logged events -----

  function LogEvents(logs: seq<seq<byte>>): seq<SwapEvent> {
    if logs == [] then []
    else
      var event := Parse(logs[0]);
      (if event.Some? then [event.value] else []) + LogEvents(logs[1..])
  }

  /** Position of the first event of `pool`; the number of events when there is none. */
  function FindPool(events: seq<SwapEvent>, pool: Key): (i: nat)
    ensures i <= |events|
    ensures i < |events| ==> events[i].pool == pool
    ensures forall k :: 0 <= k < i ==> events[k].pool != pool
  {
    if events == [] || events[0].pool == pool then 0 else 1 + FindPool(events[1..], pool)
  }

  /** The log after one lookup: the first event of `pool` taken out, if there is one. */
  function Remaining(events: seq<SwapEvent>, pool: Key): seq<SwapEvent> {
    var i := FindPool(events, pool);
    if i < |events| then events[..i] + events[i + 1..] else events
  }

  function Taken(events: seq<SwapEvent>, pool: Key): Option<SwapEvent> {
    var i := FindPool(events, pool);
    if i < |events| then Some(events[i]) else None
  }

  // ----- records -----

  datatype Source = FromLog | FromSelfCpi | FromVaults | InstructionRequest

  datatype AltFill = AltFill(pool: Key, mint: Key, quoteMint: Key, exactIn: bool, source: Source, isCpi: bool,
                             isBuy: bool, token: u64, quote: u64, marketCap: Option<u64>, reserves: Option<(u64, u64)>,
                             fees: Option<(u64, u64, u64)>)

  datatype AltRecord = AltRecord(ixIndex: nat, fill: AltFill, success: bool)

  /** Requested (base, quote): the first argument is always the input leg. */
  function RequestedAmounts(data: seq<byte>, baseIsInput: bool): (u64, u64) {
    var arg0, arg1 := U64At(data, 8), U64At(data, 16);
    if arg0.None? || arg1.None? then (0, 0)
    else if baseIsInput then (arg0.value, arg1.value)
    else (arg1.value, arg0.value)
  }

  function VaultIndex(tx: Amm.Tx, call: Call, position: nat): Option<nat> {
    if position < |call.ix.accounts| && call.ix.accounts[position] < |tx.accounts| then Some(call.ix.accounts[position])
    else None
  }

  function SelfCpiEvent(tx: Amm.Tx, call: Call): Option<SwapEvent> {
    var e := Amm.FindEvent(Amm.EventsOfCall(tx, call), SWAP_EVENT_DISC);
    if e.Some? then Parse(e.value.data) else None
  }

  function VaultEvent(t: CpmmTx, call: Call, a: Accepted): Option<SwapEvent> {
    var input, output := VaultIndex(t.tx, call, INPUT_VAULT_POS), VaultIndex(t.tx, call, OUTPUT_VAULT_POS);
    if input.None? || output.None? then None
    else FromVaultBalances(t.pre, t.post, a.pool, input.value, output.value, a.inputMint, a.outputMint)
  }

  /** The event of an accepted swap: the log, then a self-CPI, then the vault balances. */
  function EventOfSwap(t: CpmmTx, call: Call, a: Accepted, logged: Option<SwapEvent>): Option<(SwapEvent, Source)> {
    if !t.tx.success then None
    else if logged.Some? then Some((logged.value, FromLog))
    else if SelfCpiEvent(t.tx, call).Some? then Some((SelfCpiEvent(t.tx, call).value, FromSelfCpi))
    else if VaultEvent(t, call, a).Some? then Some((VaultEvent(t, call, a).value, FromVaults))
    else None
  }

  function FillOf(t: CpmmTx, call: Call, a: Accepted, logged: Option<SwapEvent>): AltFill
    requires |call.ix.data| >= 8
  {
    var event := EventOfSwap(t, call, a, logged);
    var side := if event.Some? then ResolveSide(event.value.0, a.mint) else None;
    var exactIn, isCpi := call.ix.data[..8] == BASE_INPUT_DISC, call.start > 0;
    if side.Some? then
      var s, e := side.value, event.value.0;
      AltFill(a.pool, a.mint, a.quoteMint, exactIn, event.value.1, isCpi, s.isBuy, s.baseAmount, s.quoteAmount,
              Some(MarketCap(s.quoteReserveAfter, s.baseReserveAfter, a.info.supply)),
              Some((s.baseReserveAfter, s.quoteReserveAfter)), Some((s.baseTransferFee, e.tradeFee, e.creatorFee)))
    else
      var (token, quote) := RequestedAmounts(call.ix.data, a.baseIsInput);
      AltFill(a.pool, a.mint, a.quoteMint, exactIn, InstructionRequest, isCpi, !a.baseIsInput, token, quote,
              None, None, None)
  }

  /** The fills of the swaps in `calls`, each accepted one taking its event from `events`. */
  function AltFills(seen: seq<Context>, t: CpmmTx, calls: seq<Call>, events: seq<SwapEvent>): seq<AltFill>
    requires |seen| == |calls|
    decreases calls
  {
    if calls == [] then []
    else
      var accepted := Accept(seen[0], t.tx, calls[0]);
      if accepted.None? then AltFills(seen[1..], t, calls[1..], events)
      else
        var pool := accepted.value.pool;
        [FillOf(t, calls[0], accepted.value, Taken(events, pool))]
        + AltFills(seen[1..], t, calls[1..], Remaining(events, pool))
  }

  ghost predicate Numbered(records: seq<AltRecord>, fills: seq<AltFill>, success: bool) {
    |records| == |fills| && forall i :: 0 <= i < |fills| ==> records[i] == AltRecord(i, fills[i], success)
  }

  lemma {:induction false} NumberedPush(records: seq<AltRecord>, fills: seq<AltFill>, fill: AltFill, success: bool)
    requires Numbered(records, fills, success)
    ensures Numbered(records + [AltRecord(|records|, fill, success)], fills + [fill], success)
  {
  }

  /** One instruction of the loop, in the events left by those before it. */
  lemma {:induction false} NextFills(seen: seq<Context>, t: CpmmTx, all: seq<Call>, k: nat, left: seq<SwapEvent>)
    requires k < |all| == |seen|
    ensures var accepted := Accept(seen[k], t.tx, all[k]);
            AltFills(seen[k..], t, all[k..], left)
            == if accepted.None? then AltFills(seen[k + 1..], t, all[k + 1..], left)
               else [SwapFill(t, all[k], accepted.value, left)]
                    + AltFills(seen[k + 1..], t, all[k + 1..], Remaining(left, accepted.value.pool))
  {
    assert all[k..][0] == all[k] && all[k..][1..] == all[k + 1..];
    assert seen[k..][0] == seen[k] && seen[k..][1..] == seen[k + 1..];
  }

  /** A failed transaction does not look at the log. */
  function SwapFill(t: CpmmTx, call: Call, a: Accepted, left: seq<SwapEvent>): AltFill
    requires |call.ix.data| >= 8
  {
    FillOf(t, call, a, if t.tx.success then Taken(left, a.pool) else None)
  }

  /** The record loop over the sorted instructions; the log is decoded on first use. */
  method RecordSwaps(seen: seq<Context>, t: CpmmTx, all: seq<Call>) returns (records: seq<AltRecord>)
    requires |seen| == |all|
    ensures Numbered(records, AltFills(seen, t, all, LogEvents(t.logs)), t.tx.success)
  {
    records := [];
    var logEvents: Option<seq<SwapEvent>> := None;
    var tradeIndex := 0;
    ghost var done: seq<AltFill> := [];
    ghost var left := LogEvents(t.logs);
    assert all[0..] == all && seen[0..] == seen;
    for k := 0 to |all|
      invariant tradeIndex == |records| && Numbered(records, done, t.tx.success)
      invariant done + AltFills(seen[k..], t, all[k..], left) == AltFills(seen, t, all, LogEvents(t.logs))
      invariant t.tx.success ==> left == if logEvents.Some? then logEvents.value else LogEvents(t.logs)
    {
      var call := all[k];
      NextFills(seen, t, all, k, left);
      var accepted := Accept(seen[k], t.tx, call);
      if accepted.None? {
        continue;
      }
      var pool := accepted.value.pool;
      var logged: Option<SwapEvent> := None;
      if t.tx.success {
        var events := if logEvents.Some? then logEvents.value else LogEvents(t.logs);
        logged := Taken(events, pool);
        logEvents := Some(Remaining(events, pool));
      }
      var fill := FillOf(t, call, accepted.value, logged);
      ghost var rest := AltFills(seen[k + 1..], t, all[k + 1..], Remaining(left, pool));
      Assoc(done, [fill], rest);
      NumberedPush(records, done, fill, t.tx.success);
      left := Remaining(left, pool);
      done := done + [fill];
      records := records + [AltRecord(tradeIndex, fill, t.tx.success)];
      tradeIndex := tradeIndex + 1;
    }
  }

  method ProcessCpmmTx(program: Key, seen: seq<Context>, t: CpmmTx) returns (records: seq<AltRecord>)
    requires |seen| == |SortCalls(Amm.ProgramCalls(t.tx, program))|
    ensures var calls := SortCalls(Amm.ProgramCalls(t.tx, program));
            Numbered(records, AltFills(seen, t, calls, LogEvents(t.logs)), t.tx.success)
  {
    var all := Amm.GetProgramInstructions(t.tx, program);
    all := SortCalls(all);
    records := RecordSwaps(seen, t, all);
  }
}
