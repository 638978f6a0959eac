/** Parsers and arithmetic for constant-product pool swaps (src/utils/cpmm.rs). */
module Cpmm {
  import opened Prelude
  import opened Bytes
  import opened PumpEvents

  const SWAP_EVENT_DISC: seq<byte> := [64, 198, 205, 232, 38, 8, 113, 226]
  const SWAP_EVENT_BODY_LEN: nat := 162

  datatype SwapEvent = SwapEvent(
    pool: Key, inputVaultBefore: u64, outputVaultBefore: u64, inputAmount: u64, outputAmount: u64,
    inputTransferFee: u64, outputTransferFee: u64, baseInput: bool, inputMint: Key, outputMint: Key,
    tradeFee: u64, creatorFee: u64, creatorFeeOnInput: bool)

  // ----- the event codec -----

  function Parse(data: seq<byte>): Option<SwapEvent> {
    if |data| < 8 || data[..8] != SWAP_EVENT_DISC || |data| != 8 + SWAP_EVENT_BODY_LEN then None
    else
      var b := data[8..];
      Some(SwapEvent(b[..32], U64At(b, 32).value, U64At(b, 40).value, U64At(b, 48).value, U64At(b, 56).value,
                     U64At(b, 64).value, U64At(b, 72).value, b[80] != 0, b[81..113], b[113..145],
                     U64At(b, 145).value, U64At(b, 153).value, b[161] != 0))
  }

  function Flag(v: bool): seq<byte> {
    if v then [1] else [0]
  }

  function LeList(vs: seq<u64>): (b: seq<byte>)
    ensures |b| == 8 * |vs|
  {
    if vs == [] then [] else LeBytes(vs[0], 8) + LeList(vs[1..])
  }

  lemma {:induction false} LeListAt(vs: seq<u64>, i: nat, t: seq<byte>)
    requires i < |vs|
    ensures U64At(LeList(vs) + t, 8 * i) == Some(vs[i])
  {
    Assoc(LeBytes(vs[0], 8), LeList(vs[1..]), t);
    if i == 0 {
      U64First(vs[0], LeList(vs[1..]) + t);
    } else {
      U64Skip(LeBytes(vs[0], 8), LeList(vs[1..]) + t, 8 * i);
      LeListAt(vs[1..], i - 1, t);
    }
  }

  function Amounts(e: SwapEvent): (r: seq<u64>)
    ensures |r| == 6
  {
    [e.inputVaultBefore, e.outputVaultBefore, e.inputAmount, e.outputAmount, e.inputTransferFee, e.outputTransferFee]
  }

  /** The body from offset 80 on. */
  function BodyTail(e: SwapEvent): (b: seq<byte>)
    ensures |b| == 82
  {
    var fees := LeList([e.tradeFee, e.creatorFee]) + Flag(e.creatorFeeOnInput);
    Flag(e.baseInput) + (e.inputMint + (e.outputMint + fees))
  }

  function Body(e: SwapEvent): (b: seq<byte>)
    ensures |b| == SWAP_EVENT_BODY_LEN
  {
    e.pool + (LeList(Amounts(e)) + BodyTail(e))
  }

  lemma {:induction false} BodyAmount(e: SwapEvent, i: nat)
    requires i < 6
    ensures U64At(Body(e), 32 + 8 * i) == Some(Amounts(e)[i])
  {
    U64Skip(e.pool, LeList(Amounts(e)) + BodyTail(e), 32 + 8 * i);
    LeListAt(Amounts(e), i, BodyTail(e));
  }

  lemma {:induction false} BodyFromTail(e: SwapEvent, from: nat, to: nat)
    requires 80 <= from <= to <= 162
    ensures Body(e)[from..to] == BodyTail(e)[from - 80..to - 80]
    ensures U64At(Body(e), from) == U64At(BodyTail(e), from - 80)
  {
    SliceSkip(e.pool, LeList(Amounts(e)) + BodyTail(e), from, to);
    SliceSkip(LeList(Amounts(e)), BodyTail(e), from - 32, to - 32);
    U64Skip(e.pool, LeList(Amounts(e)) + BodyTail(e), from);
    U64Skip(LeList(Amounts(e)), BodyTail(e), from - 32);
  }

  lemma {:induction false} FeesInTail(e: SwapEvent, off: nat)
    requires off >= 65
    ensures U64At(BodyTail(e), off)
         == U64At(LeList([e.tradeFee, e.creatorFee]) + Flag(e.creatorFeeOnInput), off - 65)
  {
    var t65 := LeList([e.tradeFee, e.creatorFee]) + Flag(e.creatorFeeOnInput);
    U64Skip(Flag(e.baseInput), e.inputMint + (e.outputMint + t65), off);
    U64Skip(e.inputMint, e.outputMint + t65, off - 1);
    U64Skip(e.outputMint, t65, off - 33);
  }

  lemma {:induction false} TailFields(e: SwapEvent)
    ensures var b := BodyTail(e);
            && b[0] == (if e.baseInput then 1 else 0) && b[1..33] == e.inputMint && b[33..65] == e.outputMint
            && U64At(b, 65) == Some(e.tradeFee) && U64At(b, 73) == Some(e.creatorFee)
            && b[81] == if e.creatorFeeOnInput then 1 else 0
  {
    var fees := [e.tradeFee, e.creatorFee];
    var t65 := LeList(fees) + Flag(e.creatorFeeOnInput);
    LeListAt(fees, 0, Flag(e.creatorFeeOnInput));
    LeListAt(fees, 1, Flag(e.creatorFeeOnInput));
    FeesInTail(e, 65);
    FeesInTail(e, 73);
    SliceSkip(Flag(e.baseInput), e.inputMint + (e.outputMint + t65), 1, 33);
    SliceSkip(Flag(e.baseInput), e.inputMint + (e.outputMint + t65), 33, 65);
    SliceSkip(e.inputMint, e.outputMint + t65, 32, 64);
    assert (e.inputMint + (e.outputMint + t65))[0..32] == e.inputMint;
    assert (e.outputMint + t65)[0..32] == e.outputMint;
  }

  lemma {:induction false} BodyFlag(e: SwapEvent, at: nat)
    requires 80 <= at < 162
    ensures Body(e)[at] == BodyTail(e)[at - 80]
  {
    BodyFromTail(e, at, at + 1);
    assert Body(e)[at] == Body(e)[at..at + 1][0];
  }

  lemma {:induction false} BodyFields(e: SwapEvent)
    ensures var b := Body(e);
            && b[..32] == e.pool && b[80] == (if e.baseInput then 1 else 0)
            && b[81..113] == e.inputMint && b[113..145] == e.outputMint
            && U64At(b, 145) == Some(e.tradeFee) && U64At(b, 153) == Some(e.creatorFee)
            && b[161] == if e.creatorFeeOnInput then 1 else 0
  {
    TailFields(e);
    BodyFromTail(e, 81, 113);
    BodyFromTail(e, 113, 145);
    BodyFromTail(e, 145, 145);
    BodyFromTail(e, 153, 153);
    BodyFlag(e, 80);
    BodyFlag(e, 161);
  }

  /** Parsing what the program emits gives the event back; one byte more or less of body (the
      longer event of another program with the same discriminator, say) is not an event. */
  lemma {:induction false} ParseRoundTrip(e: SwapEvent, body: seq<byte>)
    ensures Parse(SWAP_EVENT_DISC + Body(e)) == Some(e)
    ensures |body| != SWAP_EVENT_BODY_LEN ==> Parse(SWAP_EVENT_DISC + body) == None
  {
    var data := SWAP_EVENT_DISC + Body(e);
    assert data[..8] == SWAP_EVENT_DISC && data[8..] == Body(e);
    BodyAmount(e, 0);
    BodyAmount(e, 1);
    BodyAmount(e, 2);
    BodyAmount(e, 3);
    BodyAmount(e, 4);
    BodyAmount(e, 5);
    BodyFields(e);
  }

  // ----- sides -----

  datatype SwapSide = SwapSide(isBuy: bool, baseAmount: u64, quoteAmount: u64, baseReserveAfter: u64,
                               quoteReserveAfter: u64, baseTransferFee: u64)

  function SaturatingAdd(x: u64, y: u64): u64 { Clamp(x + y, 0, U64_MAX) }

  function SaturatingSub(x: u64, y: u64): u64 { Clamp(x - y, 0, U64_MAX) }

  function ResolveSide(e: SwapEvent, trackedBase: Key): Option<SwapSide> {
    if e.inputMint == trackedBase then
      Some(SwapSide(false, e.inputAmount, e.outputAmount, SaturatingAdd(e.inputVaultBefore, e.inputAmount),
                    SaturatingSub(e.outputVaultBefore, e.outputAmount), e.inputTransferFee))
    else if e.outputMint == trackedBase then
      Some(SwapSide(true, e.outputAmount, e.inputAmount, SaturatingSub(e.outputVaultBefore, e.outputAmount),
                    SaturatingAdd(e.inputVaultBefore, e.inputAmount), e.outputTransferFee))
    else None
  }

  /** The side of a logged event: input and output on the legs of their mints, and as reserves what
      the swap left in the two vaults, at most 2^64 - 1 and at least nothing. */
  lemma {:induction false} SideOfEvent(e: SwapEvent, base: Key)
    requires e.inputMint != e.outputMint
    ensures ResolveSide(e, base).Some? <==> base in {e.inputMint, e.outputMint}
    ensures base in {e.inputMint, e.outputMint} ==>
              var s, inAfter, outAfter := ResolveSide(e, base).value, e.inputVaultBefore + e.inputAmount,
                                          e.outputVaultBefore - e.outputAmount;
              var inReserve, outReserve := if inAfter <= U64_MAX then inAfter else U64_MAX,
                                           if outAfter >= 0 then outAfter else 0;
              && (s.isBuy <==> base == e.outputMint)
              && (if s.isBuy then s.baseAmount == e.outputAmount && s.quoteAmount == e.inputAmount
                  else s.baseAmount == e.inputAmount && s.quoteAmount == e.outputAmount)
              && (if s.isBuy then s.baseReserveAfter == outReserve && s.quoteReserveAfter == inReserve
                  else s.baseReserveAfter == inReserve && s.quoteReserveAfter == outReserve)
              && s.baseTransferFee == if s.isBuy then e.outputTransferFee else e.inputTransferFee
  {
  }

  /** The market cap is the exact floor, clamped: the 128-bit product never saturates. */
  function MarketCap(quoteReserve: u64, baseReserve: u64, supply: u64): (r: u64)
    ensures baseReserve > 0 ==> r == Clamp(quoteReserve * supply / baseReserve, 0, U64_MAX)
    ensures baseReserve == 0 ==> r == 0
  {
    if baseReserve == 0 then 0
    else
      ProductFits(quoteReserve, supply);
      var numer := Clamp(quoteReserve * supply, 0, U128_MAX);
      if numer / baseReserve <= U64_MAX then numer / baseReserve else U64_MAX
  }

  lemma {:induction false} ProductFits(x: u64, y: u64)
    ensures 0 <= x * y <= U128_MAX
  {
    assert x * y <= U64_MAX * y <= U64_MAX * U64_MAX;
  }

  // ----- swaps rebuilt from vault balances -----

  /** A token-balance row; the amount is None when missing or unparseable. */
  datatype AmountRow = AmountRow(account: nat, amount: Option<u64>)

  function AmountOf(rows: seq<AmountRow>, account: nat): Option<u64> {
    if rows == [] then None
    else if rows[0].account == account then rows[0].amount
    else AmountOf(rows[1..], account)
  }

  ghost predicate FirstAmountOf(rows: seq<AmountRow>, account: nat, i: nat) {
    i < |rows| && rows[i].account == account && forall j :: 0 <= j < i ==> rows[j].account != account
  }

  lemma {:induction false} AmountAt(rows: seq<AmountRow>, account: nat, i: nat)
    requires FirstAmountOf(rows, account, i)
    ensures AmountOf(rows, account) == rows[i].amount
    decreases i
  {
    if i > 0 {
      assert forall j :: 0 <= j < |rows| - 1 ==> rows[1..][j] == rows[j + 1];
      AmountAt(rows[1..], account, i - 1);
    }
  }

  lemma {:induction false} NoRowNoAmount(rows: seq<AmountRow>, account: nat)
    requires forall r :: r in rows ==> r.account != account
    ensures AmountOf(rows, account) == None
  {
    if rows != [] {
      assert rows[0] in rows;
      NoRowNoAmount(rows[1..], account);
    }
  }

  /** The first row of the account decides; without one there is no amount. */
  lemma {:induction false} AmountIsFirst(rows: seq<AmountRow>, account: nat)
    ensures forall i: nat :: FirstAmountOf(rows, account, i) ==> AmountOf(rows, account) == rows[i].amount
    ensures (forall r :: r in rows ==> r.account != account) ==> AmountOf(rows, account) == None
  {
    forall i: nat | FirstAmountOf(rows, account, i) ensures AmountOf(rows, account) == rows[i].amount {
      AmountAt(rows, account, i);
    }
    if forall r :: r in rows ==> r.account != account {
      NoRowNoAmount(rows, account);
    }
  }

  function FromVaultBalances(pre: seq<AmountRow>, post: seq<AmountRow>, pool: Key, inputVault: nat, outputVault: nat,
                             inputMint: Key, outputMint: Key): Option<SwapEvent> {
    var preIn, postIn := AmountOf(pre, inputVault), AmountOf(post, inputVault);
    var preOut, postOut := AmountOf(pre, outputVault), AmountOf(post, outputVault);
    if preIn.None? || postIn.None? || preOut.None? || postOut.None? then None
    else if postIn.value < preIn.value || preOut.value < postOut.value then None
    else
      var inputAmount, outputAmount := postIn.value - preIn.value, preOut.value - postOut.value;
      if inputAmount == 0 || outputAmount == 0 then None
      else Some(SwapEvent(pool, preIn.value, preOut.value, inputAmount, outputAmount, 0, 0, true,
                          inputMint, outputMint, 0, 0, false))
  }

  /** A rebuilt swap, resolved to either leg, reports the two post balances as reserves, and
      the two legs' views mirror each other. */
  lemma {:induction false} RebuiltSwapSides(pre: seq<AmountRow>, post: seq<AmountRow>, pool: Key, inputVault: nat,
                                            outputVault: nat, inputMint: Key, outputMint: Key)
    requires inputMint != outputMint
    requires FromVaultBalances(pre, post, pool, inputVault, outputVault, inputMint, outputMint).Some?
    ensures var e := FromVaultBalances(pre, post, pool, inputVault, outputVault, inputMint, outputMint).value;
            var sell, buy := ResolveSide(e, inputMint), ResolveSide(e, outputMint);
            && sell.Some? && buy.Some? && !sell.value.isBuy && buy.value.isBuy
            && Some(sell.value.baseReserveAfter) == AmountOf(post, inputVault) == Some(buy.value.quoteReserveAfter)
            && Some(sell.value.quoteReserveAfter) == AmountOf(post, outputVault) == Some(buy.value.baseReserveAfter)
            && sell.value.baseAmount == buy.value.quoteAmount && sell.value.quoteAmount == buy.value.baseAmount
            && AmountOf(pre, inputVault) == Some(sell.value.baseReserveAfter - sell.value.baseAmount)
            && AmountOf(pre, outputVault) == Some(buy.value.baseReserveAfter + buy.value.baseAmount)
            && sell.value.baseTransferFee == buy.value.baseTransferFee == e.tradeFee == e.creatorFee == 0
            && e.pool == pool && e.baseInput && !e.creatorFeeOnInput
  {
  }

  /** One token movement in or out of an account. */
  datatype Transfer = Transfer(account: nat, delta: int)

  function Moved(transfers: seq<Transfer>, account: nat): int {
    if transfers == [] then 0
    else (if transfers[0].account == account then transfers[0].delta else 0) + Moved(transfers[1..], account)
  }

  lemma {:induction false} MovedAppend(a: seq<Transfer>, b: seq<Transfer>, account: nat)
    ensures Moved(a + b, account) == Moved(a, account) + Moved(b, account)
  {
    if a == [] {
      assert a + b == b;
    } else {
      assert (a + b)[0] == a[0] && (a + b)[1..] == a[1..] + b;
      MovedAppend(a[1..], b, account);
    }
  }

  /** The two transfers of a swap that takes `x` in and pays `y` out. */
  function SwapTransfers(inputVault: nat, outputVault: nat, x: u64, y: u64): seq<Transfer> {
    [Transfer(inputVault, x), Transfer(outputVault, -(y as int))]
  }

  /** A swap rebuilt from the vaults has exactly its own amounts if and only if everything else
      the transaction did to them cancels out, as when it is the pool's only swap. */
  lemma {:induction false} RebuiltAmountsExactIff(pre: seq<AmountRow>, post: seq<AmountRow>, pool: Key,
                                                  inputVault: nat, outputVault: nat, inputMint: Key, outputMint: Key,
                                                  before: seq<Transfer>, x: u64, y: u64, after: seq<Transfer>)
    requires inputVault != outputVault && x > 0 && y > 0
    requires forall v :: v in {inputVault, outputVault} ==>
               && AmountOf(pre, v).Some? && AmountOf(post, v).Some?
               && AmountOf(post, v).value == AmountOf(pre, v).value
                    + Moved(before + SwapTransfers(inputVault, outputVault, x, y) + after, v)
    ensures var e := FromVaultBalances(pre, post, pool, inputVault, outputVault, inputMint, outputMint);
            e.Some? && e.value.inputAmount == x && e.value.outputAmount == y
            <==> Moved(before + after, inputVault) == 0 && Moved(before + after, outputVault) == 0
  {
    var own := SwapTransfers(inputVault, outputVault, x, y);
    OwnMoved(inputVault, outputVault, x, y);
    MovedParts(before, own, after, inputVault);
    MovedParts(before, own, after, outputVault);
    assert inputVault in {inputVault, outputVault} && outputVault in {inputVault, outputVault};
  }

  lemma {:induction false} OwnMoved(inputVault: nat, outputVault: nat, x: u64, y: u64)
    requires inputVault != outputVault
    ensures var own := SwapTransfers(inputVault, outputVault, x, y);
            Moved(own, inputVault) == x && Moved(own, outputVault) == -(y as int)
  {
    var second := [Transfer(outputVault, -(y as int))];
    assert SwapTransfers(inputVault, outputVault, x, y)[1..] == second;
    assert |second[1..]| == 0;
    assert Moved(second, inputVault) == 0 && Moved(second, outputVault) == -(y as int);
  }

  lemma {:induction false} MovedParts(before: seq<Transfer>, own: seq<Transfer>, after: seq<Transfer>, account: nat)
    ensures Moved(before + own + after, account) == Moved(before + after, account) + Moved(own, account)
  {
    MovedAppend(before + own, after, account);
    MovedAppend(before, own, account);
    MovedAppend(before, after, account);
  }

  // ----- the two market caps -----

  lemma {:induction false} FloorOfQuotient(n: nat, b: nat)
    requires b > 0
    ensures (n as real / b as real).Floor == n / b
    ensures n / b <= (n as real / b as real + 0.5).Floor <= n / b + 1
  {
    var q, x := n / b, n as real / b as real;
    assert x * b as real == n as real;
    assert b * q <= n < b * (q + 1);
    assert (b * q) as real == b as real * q as real;
    assert (b * (q + 1)) as real == b as real * (q + 1) as real;
    QuotientOrder(n as real, b as real, q as real);
    QuotientOrder(n as real, b as real, (q + 1) as real);
  }

  lemma {:induction false} QuotientOrder(n: real, b: real, q: real)
    requires b > 0.0
    ensures b * q <= n <==> q <= n / b
  {
    var x := n / b;
    assert x * b == n;
    if q <= x {
      assert b * q <= b * x;
    } else {
      assert b * x < b * q;
    }
  }

  /** Over exact reals the PumpSwap cap and the CPMM cap of the same reserves, at a supply of
      10^15, differ by rounding only: by at most one unit, even where they saturate. */
  lemma {:induction false} CapsDifferByRounding(base: u64, quote: u64, unit: real)
    requires unit > 0.0
    ensures var pump, cpmm := MarketCapFromReserves(base, quote, unit), MarketCap(quote, base, 1_000_000_000_000_000);
            cpmm <= pump <= cpmm + 1
  {
    if base > 0 {
      MarketCapValue(base, quote, unit);
      FloorOfQuotient(quote * 1_000_000_000_000_000, base);
    }
  }
}
