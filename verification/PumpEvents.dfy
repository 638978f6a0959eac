/** Field decoders of PumpSwap event payloads, and the pricing arithmetic on the reserves
    they carry (src/utils/transaction.rs). Offsets count from the event discriminator. */
module PumpEvents {
  import opened Prelude
  import opened Bytes

  const BUY_EVENT_DISC: seq<byte> := [103, 244, 82, 31, 44, 245, 119, 119]
  const SELL_EVENT_DISC: seq<byte> := [62, 47, 55, 10, 165, 3, 220, 42]
  const BOOST_EVENT_DISC: seq<byte> := [63, 69, 28, 22, 48, 92, 194, 185]

  const SELL_VQR_OFFSET: nat := 392
  const BUY_IX_NAME_OFFSET: nat := 401
  const BUY_POST_IX_NAME_SCALARS: nat := 32

  // ----- decoders -----

  function PoolReserves(b: seq<byte>): (Option<u64>, Option<u64>) {
    if |b| < 64 then (None, None) else (U64At(b, 48), U64At(b, 56))
  }

  /** (buy volume, sell volume) */
  function QuoteVolume(b: seq<byte>): (Option<u64>, Option<u64>) {
    if |b| < 120 then (None, None) else (U64At(b, 112), U64At(b, 64))
  }

  function TransactionAmount(b: seq<byte>): Option<u64> {
    if |b| < 24 then None else U64At(b, 16)
  }

  function EventPool(b: seq<byte>): Option<Key> {
    if |b| < 152 then None else Some(b[120..152])
  }

  /** Where the virtual reserve field starts; None when the name length is cut off. */
  function VqrOffset(b: seq<byte>, isBuy: bool): Option<nat> {
    if !isBuy then Some(SELL_VQR_OFFSET)
    else if BUY_IX_NAME_OFFSET + 4 > |b| then None
    else Some(BUY_IX_NAME_OFFSET + 4 + LeNat(b[BUY_IX_NAME_OFFSET..BUY_IX_NAME_OFFSET + 4]) + BUY_POST_IX_NAME_SCALARS)
  }

  function VirtualQuoteReserves(b: seq<byte>, isBuy: bool): Option<i128> {
    match VqrOffset(b, isBuy)
    case None => None
    case Some(p) => I128At(b, p)
  }

  /** The walker: skips the variable-length name by moving `p`. */
  method ExtractVirtualQuoteReserves(bytes: seq<byte>, isBuy: bool) returns (r: Option<i128>)
    ensures r == VirtualQuoteReserves(bytes, isBuy)
  {
    var p := SELL_VQR_OFFSET;
    if isBuy {
      p := BUY_IX_NAME_OFFSET;
      if p + 4 > |bytes| {
        return None;
      }
      var ixNameLen := LeNat(bytes[p..p + 4]);
      p := p + 4 + ixNameLen;
      p := p + BUY_POST_IX_NAME_SCALARS;
    }
    if p + 16 > |bytes| {
      return None;
    }
    r := I128At(bytes, p);
  }

  function SaturatingAddI128(x: i128, y: i128): i128 {
    Clamp(x + y, I128_MIN, I128_MAX)
  }

  /** The saturating addition never shows: the result is the true sum, clamped to u64. */
  function EffectiveQuoteReserves(raw: u64, virtualReserves: Option<i128>): (r: u64)
    ensures r == Clamp(raw + (if virtualReserves.Some? then virtualReserves.value else 0), 0, U64_MAX)
  {
    match virtualReserves
    case Some(v) => Clamp(SaturatingAddI128(raw, v), 0, U64_MAX)
    case None => raw
  }

  datatype BoostEvent = BoostEvent(baseBurned: u64, quoteUsed: u64, baseAfter: u64, effectiveQuote: u64)

  function ExtractBoostBuyEvent(b: seq<byte>): Option<BoostEvent> {
    if |b| < 200 then None
    else Some(BoostEvent(U64At(b, 160).value, U64At(b, 152).value, U64At(b, 192).value,
                         EffectiveQuoteReserves(U64At(b, 184).value, I128At(b, 168))))
  }

  // ----- the layout events are written in -----

  /** A BuyEvent or SellEvent; the chunks hold the fields this collector never reads. */
  datatype TradeEvent = TradeEvent(
    isBuy: bool, timestamp: seq<byte>, amount: u64, chunk24: seq<byte>,
    poolBase: u64, poolQuote: u64, sellQuote: u64, chunk72: seq<byte>, buyQuote: u64, pool: Key,
    chunk152: seq<byte>, chunk360: seq<byte>, ixName: seq<byte>, scalars: seq<byte>,
    virtualQuote: i128, appended: seq<byte>)

  predicate WellFormed(e: TradeEvent) {
    && |e.timestamp| == 8 && |e.chunk24| == 24 && |e.chunk72| == 40 && |e.chunk152| == 208
    && |e.scalars| == 32
    && (if e.isBuy then |e.chunk360| == 41 && |e.ixName| < 0x1_0000_0000 else e.chunk360 == [] && e.ixName == [])
  }

  function Disc(isBuy: bool): (b: seq<byte>)
    ensures |b| == 8
  {
    if isBuy then BUY_EVENT_DISC else SELL_EVENT_DISC
  }

  // The shared prefix, from offset 64, 48, 16 and 0 on.
  function PrefixFrom64(e: TradeEvent): (b: seq<byte>)
    requires WellFormed(e)
    ensures |b| == 88
  {
    LeBytes(e.sellQuote, 8) + (e.chunk72 + (LeBytes(e.buyQuote, 8) + e.pool))
  }

  function PrefixFrom48(e: TradeEvent): (b: seq<byte>)
    requires WellFormed(e)
    ensures |b| == 104
  {
    LeBytes(e.poolBase, 8) + (LeBytes(e.poolQuote, 8) + PrefixFrom64(e))
  }

  function PrefixFrom16(e: TradeEvent): (b: seq<byte>)
    requires WellFormed(e)
    ensures |b| == 136
  {
    LeBytes(e.amount, 8) + (e.chunk24 + PrefixFrom48(e))
  }

  function EventHead(e: TradeEvent): (b: seq<byte>)
    requires WellFormed(e)
    ensures |b| == 152
  {
    Disc(e.isBuy) + (e.timestamp + PrefixFrom16(e))
  }

  /** From offset 152 up to the virtual reserve. */
  function EventMiddle(e: TradeEvent): (b: seq<byte>)
    requires WellFormed(e)
    ensures |b| == if e.isBuy then 285 + |e.ixName| else 240
  {
    e.chunk152 + (if e.isBuy then e.chunk360 + (LeBytes(|e.ixName|, 4) + (e.ixName + e.scalars)) else e.scalars)
  }

  /** Everything written before the virtual reserve: the whole pre-upgrade layout. */
  function BeforeVirtual(e: TradeEvent): (b: seq<byte>)
    requires WellFormed(e)
    ensures |b| == if e.isBuy then 437 + |e.ixName| else 392
  {
    EventHead(e) + EventMiddle(e)
  }

  function Encode(e: TradeEvent): seq<byte>
    requires WellFormed(e)
  {
    BeforeVirtual(e) + I128Bytes(e.virtualQuote) + e.appended
  }

  // ----- decoding what was encoded -----

  lemma {:induction false} NameLengthWritten(e: TradeEvent)
    requires WellFormed(e) && e.isBuy
    ensures LeNat(BeforeVirtual(e)[401..405]) == |e.ixName|
  {
    var named := LeBytes(|e.ixName|, 4) + (e.ixName + e.scalars);
    SliceSkip(EventHead(e), EventMiddle(e), 401, 405);
    SliceSkip(e.chunk152, e.chunk360 + named, 249, 253);
    SliceSkip(e.chunk360, named, 41, 45);
    assert named[0..4] == LeBytes(|e.ixName|, 4);
    Pow256Values();
    LeRoundTrip(|e.ixName|, 4);
  }

  lemma {:induction false} VqrOffsetOfEncoded(e: TradeEvent, b: seq<byte>)
    requires WellFormed(e)
    requires BeforeVirtual(e) <= b || b <= BeforeVirtual(e)
    requires e.isBuy ==> |b| >= BUY_IX_NAME_OFFSET + 4
    ensures VqrOffset(b, e.isBuy) == Some(|BeforeVirtual(e)|)
  {
    if e.isBuy {
      NameLengthWritten(e);
      assert b[401..405] == BeforeVirtual(e)[401..405];
    }
  }

  /** The signed virtual reserve survives encoding, whatever the length of the name. */
  lemma {:induction false} VirtualReservesRoundTrip(e: TradeEvent)
    requires WellFormed(e)
    ensures VirtualQuoteReserves(Encode(e), e.isBuy) == Some(e.virtualQuote)
  {
    VqrOffsetOfEncoded(e, Encode(e));
    I128AtWritten(BeforeVirtual(e), e.virtualQuote, e.appended);
  }

  /** Every cut that removes part of the field, the pre-upgrade layout included, reads as absent. */
  lemma {:induction false} TruncatedHasNoVirtualReserves(e: TradeEvent, k: nat)
    requires WellFormed(e) && k < |BeforeVirtual(e)| + 16
    ensures VirtualQuoteReserves(Encode(e)[..k], e.isBuy) == None
  {
    var b := Encode(e)[..k];
    if !e.isBuy || k >= BUY_IX_NAME_OFFSET + 4 {
      assert Encode(e)[..|BeforeVirtual(e)|] == BeforeVirtual(e);
      assert BeforeVirtual(e) <= b || b <= BeforeVirtual(e);
      VqrOffsetOfEncoded(e, b);
    }
  }

  /** Appending fields to an event changes no decoder's answer once it has one. */
  lemma {:induction false} AppendingIsHarmless(b: seq<byte>, extra: seq<byte>, isBuy: bool)
    ensures |b| >= 64 ==> PoolReserves(b + extra) == PoolReserves(b)
    ensures |b| >= 120 ==> QuoteVolume(b + extra) == QuoteVolume(b)
    ensures |b| >= 24 ==> TransactionAmount(b + extra) == TransactionAmount(b)
    ensures |b| >= 152 ==> EventPool(b + extra) == EventPool(b)
    ensures |b| >= 200 ==> ExtractBoostBuyEvent(b + extra) == ExtractBoostBuyEvent(b)
    ensures VirtualQuoteReserves(b, isBuy).Some? ==>
              VirtualQuoteReserves(b + extra, isBuy) == VirtualQuoteReserves(b, isBuy)
  {
    forall off: nat {
      SameInsideSlice(b, extra, off);
    }
    if |b| >= 152 {
      assert (b + extra)[120..152] == b[120..152];
    }
    if isBuy && |b| >= 405 {
      assert (b + extra)[401..405] == b[401..405];
    }
  }

  lemma {:induction false} From64Fields(e: TradeEvent)
    requires WellFormed(e)
    ensures var b := PrefixFrom64(e);
            U64At(b, 0) == Some(e.sellQuote) && U64At(b, 48) == Some(e.buyQuote) && b[56..88] == e.pool
  {
    var t112 := LeBytes(e.buyQuote, 8) + e.pool;
    U64First(e.sellQuote, e.chunk72 + t112);
    U64Skip(LeBytes(e.sellQuote, 8), e.chunk72 + t112, 48);
    U64Skip(e.chunk72, t112, 40);
    U64First(e.buyQuote, e.pool);
    SliceSkip(LeBytes(e.sellQuote, 8), e.chunk72 + t112, 56, 88);
    SliceSkip(e.chunk72, t112, 48, 80);
    SliceSkip(LeBytes(e.buyQuote, 8), e.pool, 8, 40);
  }

  lemma {:induction false} From48Skip(e: TradeEvent, off: nat)
    requires WellFormed(e) && off >= 16
    ensures U64At(PrefixFrom48(e), off) == U64At(PrefixFrom64(e), off - 16)
  {
    U64Skip(LeBytes(e.poolBase, 8), LeBytes(e.poolQuote, 8) + PrefixFrom64(e), off);
    U64Skip(LeBytes(e.poolQuote, 8), PrefixFrom64(e), off - 8);
  }

  lemma {:induction false} From48Fields(e: TradeEvent)
    requires WellFormed(e)
    ensures var b := PrefixFrom48(e);
            && U64At(b, 0) == Some(e.poolBase) && U64At(b, 8) == Some(e.poolQuote)
            && U64At(b, 16) == Some(e.sellQuote) && U64At(b, 64) == Some(e.buyQuote)
            && b[72..104] == e.pool
  {
    var t56 := LeBytes(e.poolQuote, 8) + PrefixFrom64(e);
    From64Fields(e);
    U64First(e.poolBase, t56);
    U64Skip(LeBytes(e.poolBase, 8), t56, 8);
    U64First(e.poolQuote, PrefixFrom64(e));
    From48Skip(e, 16);
    From48Skip(e, 64);
    SliceSkip(LeBytes(e.poolBase, 8), t56, 72, 104);
    SliceSkip(LeBytes(e.poolQuote, 8), PrefixFrom64(e), 64, 96);
  }

  lemma {:induction false} HeadField(e: TradeEvent, off: nat)
    requires WellFormed(e) && off >= 48
    ensures U64At(EventHead(e), off) == U64At(PrefixFrom48(e), off - 48)
  {
    U64Skip(Disc(e.isBuy), e.timestamp + PrefixFrom16(e), off);
    U64Skip(e.timestamp, PrefixFrom16(e), off - 8);
    U64Skip(LeBytes(e.amount, 8), e.chunk24 + PrefixFrom48(e), off - 16);
    U64Skip(e.chunk24, PrefixFrom48(e), off - 24);
  }

  lemma {:induction false} HeadAmountAndPool(e: TradeEvent)
    requires WellFormed(e)
    ensures U64At(EventHead(e), 16) == Some(e.amount)
    ensures EventHead(e)[120..152] == PrefixFrom48(e)[72..104]
  {
    U64Skip(Disc(e.isBuy), e.timestamp + PrefixFrom16(e), 16);
    U64Skip(e.timestamp, PrefixFrom16(e), 8);
    U64First(e.amount, e.chunk24 + PrefixFrom48(e));
    SliceSkip(Disc(e.isBuy), e.timestamp + PrefixFrom16(e), 120, 152);
    SliceSkip(e.timestamp, PrefixFrom16(e), 112, 144);
    SliceSkip(LeBytes(e.amount, 8), e.chunk24 + PrefixFrom48(e), 104, 136);
    SliceSkip(e.chunk24, PrefixFrom48(e), 96, 128);
  }

  /** The fixed-offset decoders return the fields that were written, whatever follows them. */
  lemma {:induction false} HeadRoundTrip(e: TradeEvent, rest: seq<byte>)
    requires WellFormed(e)
    ensures var b := EventHead(e) + rest;
            && TransactionAmount(b) == Some(e.amount)
            && PoolReserves(b) == (Some(e.poolBase), Some(e.poolQuote))
            && QuoteVolume(b) == (Some(e.buyQuote), Some(e.sellQuote))
            && EventPool(b) == Some(e.pool)
            && b[..8] == Disc(e.isBuy)
  {
    var h := EventHead(e);
    From48Fields(e);
    HeadField(e, 48);
    HeadField(e, 56);
    HeadField(e, 64);
    HeadField(e, 112);
    HeadAmountAndPool(e);
    AppendingIsHarmless(h, rest, e.isBuy);
    assert (h + rest)[..8] == Disc(e.isBuy);
  }

  // ----- the boost event -----

  /** A BoostBuyAndBurnEvent; `head` holds the fields before offset 152 that are never read. */
  datatype BoostWritten = BoostWritten(head: seq<byte>, quoteUsed: u64, baseBurned: u64, virtualQuote: i128,
                                       realQuote: u64, baseAfter: u64, appended: seq<byte>)

  predicate BoostWellFormed(e: BoostWritten) {
    |e.head| == 144
  }

  // From offset 184, 168, 160 and 152 on.
  function BoostFrom184(e: BoostWritten): seq<byte> {
    LeBytes(e.realQuote, 8) + (LeBytes(e.baseAfter, 8) + e.appended)
  }

  function BoostFrom168(e: BoostWritten): seq<byte> {
    I128Bytes(e.virtualQuote) + BoostFrom184(e)
  }

  function BoostFrom152(e: BoostWritten): seq<byte> {
    LeBytes(e.quoteUsed, 8) + (LeBytes(e.baseBurned, 8) + BoostFrom168(e))
  }

  function BoostHead(e: BoostWritten): (b: seq<byte>)
    requires BoostWellFormed(e)
    ensures |b| == 152
  {
    BOOST_EVENT_DISC + e.head
  }

  function EncodeBoost(e: BoostWritten): seq<byte>
    requires BoostWellFormed(e)
  {
    BoostHead(e) + BoostFrom152(e)
  }

  lemma {:induction false} I128Skip(x: seq<byte>, t: seq<byte>, off: nat)
    requires |x| <= off
    ensures I128At(x + t, off) == I128At(t, off - |x|)
  {
    if off + 16 <= |x| + |t| {
      SliceSkip(x, t, off, off + 16);
    }
  }

  lemma {:induction false} BoostTail(e: BoostWritten)
    ensures var b := BoostFrom168(e);
            && I128At(b, 0) == Some(e.virtualQuote)
            && U64At(b, 16) == Some(e.realQuote) && U64At(b, 24) == Some(e.baseAfter)
  {
    var v, t := I128Bytes(e.virtualQuote), BoostFrom184(e);
    var none: seq<byte> := [];
    assert none + v + t == v + t;
    I128AtWritten(none, e.virtualQuote, t);
    U64Skip(v, t, 16);
    U64First(e.realQuote, LeBytes(e.baseAfter, 8) + e.appended);
    U64Skip(v, t, 24);
    U64Skip(LeBytes(e.realQuote, 8), LeBytes(e.baseAfter, 8) + e.appended, 8);
    U64First(e.baseAfter, e.appended);
  }

  lemma {:induction false} BoostSkip(e: BoostWritten, off: nat)
    requires BoostWellFormed(e) && off >= 168
    ensures U64At(EncodeBoost(e), off) == U64At(BoostFrom168(e), off - 168)
    ensures I128At(EncodeBoost(e), off) == I128At(BoostFrom168(e), off - 168)
  {
    var t := LeBytes(e.baseBurned, 8) + BoostFrom168(e);
    U64Skip(BoostHead(e), BoostFrom152(e), off);
    U64Skip(LeBytes(e.quoteUsed, 8), t, off - 152);
    U64Skip(LeBytes(e.baseBurned, 8), BoostFrom168(e), off - 160);
    I128Skip(BoostHead(e), BoostFrom152(e), off);
    I128Skip(LeBytes(e.quoteUsed, 8), t, off - 152);
    I128Skip(LeBytes(e.baseBurned, 8), BoostFrom168(e), off - 160);
  }

  lemma {:induction false} BoostAmounts(e: BoostWritten)
    requires BoostWellFormed(e)
    ensures U64At(EncodeBoost(e), 152) == Some(e.quoteUsed) && U64At(EncodeBoost(e), 160) == Some(e.baseBurned)
  {
    var t := LeBytes(e.baseBurned, 8) + BoostFrom168(e);
    U64Skip(BoostHead(e), BoostFrom152(e), 152);
    U64First(e.quoteUsed, t);
    U64Skip(BoostHead(e), BoostFrom152(e), 160);
    U64Skip(LeBytes(e.quoteUsed, 8), t, 8);
    U64First(e.baseBurned, BoostFrom168(e));
  }

  /** A written boost event gives back its four values, the quote side as the true signed sum of
      vault and virtual reserve, clamped. */
  lemma {:induction false} BoostRoundTrip(e: BoostWritten)
    requires BoostWellFormed(e)
    ensures EncodeBoost(e)[..8] == BOOST_EVENT_DISC
    ensures ExtractBoostBuyEvent(EncodeBoost(e))
         == Some(BoostEvent(e.baseBurned, e.quoteUsed, e.baseAfter, Clamp(e.realQuote + e.virtualQuote, 0, U64_MAX)))
  {
    BoostAmounts(e);
    BoostTail(e);
    BoostSkip(e, 168);
    BoostSkip(e, 184);
    BoostSkip(e, 192);
  }

  /** A cut inside the fixed part reads as no event, one behind it changes nothing. */
  lemma {:induction false} TruncatedBoost(e: BoostWritten, k: nat)
    requires BoostWellFormed(e) && k <= |EncodeBoost(e)|
    ensures ExtractBoostBuyEvent(EncodeBoost(e)[..k])
         == if k < 200 then None else ExtractBoostBuyEvent(EncodeBoost(e))
  {
    if k >= 200 {
      assert EncodeBoost(e)[..k] + EncodeBoost(e)[k..] == EncodeBoost(e);
      AppendingIsHarmless(EncodeBoost(e)[..k], EncodeBoost(e)[k..], true);
    }
  }

  // ----- market cap, over exact reals -----

  /** `f64::round` then `as u64`, without the floating-point rounding of the operands. */
  function RoundToU64(x: real): u64 {
    Clamp(if x >= 0.0 then (x + 0.5).Floor else -(0.5 - x).Floor, 0, U64_MAX)
  }

  /** Base and quote side once a trade is applied to the reserves. */
  function BaseAfter(poolBase: u64, tokenAmount: u64, isBuy: bool): real {
    var base, delta := poolBase as real / 1000000.0, tokenAmount as real / 1000000.0;
    if isBuy then base - delta else base + delta
  }

  function QuoteAfter(quote: real, delta: real, isBuy: bool): real {
    if isBuy then quote + delta else quote - delta
  }

  function MarketCapInQuote(poolBase: u64, poolQuote: u64, tokenAmount: u64, quoteAmount: u64,
                            isBuy: bool, unit: real): u64
    requires unit > 0.0
  {
    if poolBase == 0 then 0
    else
      var base := BaseAfter(poolBase, tokenAmount, isBuy);
      var quote := QuoteAfter(poolQuote as real / unit, quoteAmount as real / unit, isBuy);
      if base <= 0.0 then 0
      else RoundToU64(quote / base * 1000000000.0 * unit)
  }

  function MarketCapFromReserves(base: u64, quote: u64, unit: real): u64
    requires unit > 0.0
  {
    MarketCapInQuote(base, quote, 0, 0, false, unit)
  }

  lemma {:induction false} UnitCancels(quote: real, delta: real, base: real, isBuy: bool, unit: real)
    requires unit > 0.0 && base > 0.0
    ensures QuoteAfter(quote / unit, delta / unit, isBuy) / base * 1000000000.0 * unit
         == QuoteAfter(quote, delta, isBuy) / base * 1000000000.0
  {
    var whole, scaled := QuoteAfter(quote, delta, isBuy), QuoteAfter(quote / unit, delta / unit, isBuy);
    assert scaled * unit == whole by {
      assert quote / unit * unit == quote && delta / unit * unit == delta;
    }
    ScaleOut(scaled, base, unit);
  }

  lemma {:induction false} ScaleOut(x: real, base: real, unit: real)
    requires base > 0.0
    ensures x / base * 1000000000.0 * unit == x * unit / base * 1000000000.0
  {
    assert x / base * unit == x * unit / base;
  }

  /** In the quote's own units the market cap does not depend on the quote's decimals. */
  lemma {:induction false} MarketCapIgnoresUnit(poolBase: u64, poolQuote: u64, tokenAmount: u64, quoteAmount: u64,
                                                isBuy: bool, unit: real)
    requires unit > 0.0
    ensures var base := BaseAfter(poolBase, tokenAmount, isBuy);
            MarketCapInQuote(poolBase, poolQuote, tokenAmount, quoteAmount, isBuy, unit)
            == if poolBase == 0 || base <= 0.0 then 0
               else RoundToU64(QuoteAfter(poolQuote as real, quoteAmount as real, isBuy) / base * 1000000000.0)
  {
    if poolBase > 0 && BaseAfter(poolBase, tokenAmount, isBuy) > 0.0 {
      CapInUnits(poolBase, poolQuote, tokenAmount, quoteAmount, isBuy, unit);
    } else {
      NoCap(poolBase, poolQuote, tokenAmount, quoteAmount, isBuy, unit);
    }
  }

  lemma {:induction false} NoCap(poolBase: u64, poolQuote: u64, tokenAmount: u64, quoteAmount: u64, isBuy: bool,
                                 unit: real)
    requires unit > 0.0 && (poolBase == 0 || BaseAfter(poolBase, tokenAmount, isBuy) <= 0.0)
    ensures MarketCapInQuote(poolBase, poolQuote, tokenAmount, quoteAmount, isBuy, unit) == 0
  {
  }

  lemma {:induction false} CapInUnits(poolBase: u64, poolQuote: u64, tokenAmount: u64, quoteAmount: u64, isBuy: bool,
                                      unit: real)
    requires unit > 0.0 && poolBase > 0 && BaseAfter(poolBase, tokenAmount, isBuy) > 0.0
    ensures MarketCapInQuote(poolBase, poolQuote, tokenAmount, quoteAmount, isBuy, unit)
         == RoundToU64(QuoteAfter(poolQuote as real, quoteAmount as real, isBuy)
                       / BaseAfter(poolBase, tokenAmount, isBuy) * 1000000000.0)
  {
    CapOfQuotient(poolBase, poolQuote, tokenAmount, quoteAmount, isBuy, unit);
    UnitCancels(poolQuote as real, quoteAmount as real, BaseAfter(poolBase, tokenAmount, isBuy), isBuy, unit);
  }

  lemma {:induction false} CapOfQuotient(poolBase: u64, poolQuote: u64, tokenAmount: u64, quoteAmount: u64,
                                         isBuy: bool, unit: real)
    requires unit > 0.0 && poolBase > 0 && BaseAfter(poolBase, tokenAmount, isBuy) > 0.0
    ensures MarketCapInQuote(poolBase, poolQuote, tokenAmount, quoteAmount, isBuy, unit)
         == RoundToU64(QuoteAfter(poolQuote as real / unit, quoteAmount as real / unit, isBuy)
                       / BaseAfter(poolBase, tokenAmount, isBuy) * 1000000000.0 * unit)
  {
  }

  lemma {:induction false} BaseUnitCancels(q: real, b: real)
    requires b > 0.0
    ensures q / (b / 1000000.0) * 1000000000.0 == q * 1000000000000000.0 / b
  {
    var c := b / 1000000.0;
    assert q / c * b == q / c * c * 1000000.0 == q * 1000000.0;
  }

  /** The cap from post-trade reserves is quote * 10^15 / base, rounded and clamped. */
  lemma {:induction false} MarketCapValue(base: u64, quote: u64, unit: real)
    requires unit > 0.0 && base > 0
    ensures MarketCapFromReserves(base, quote, unit)
         == RoundToU64((quote * 1_000_000_000_000_000) as real / base as real)
  {
    MarketCapIgnoresUnit(base, quote, 0, 0, false, unit);
    BaseUnitCancels(quote as real, base as real);
    assert BaseAfter(base, 0, false) == base as real / 1000000.0;
  }

  /** Rounding picks a nearest integer, the upper one of two; what is negative or too large is cut to
      the range. */
  lemma {:induction false} RoundsToNearest(x: real)
    ensures var r := RoundToU64(x);
            && (0.0 <= x <= U64_MAX as real ==> r as real - 0.5 <= x < r as real + 0.5)
            && (x <= 0.0 ==> r == 0) && (x >= U64_MAX as real ==> r == U64_MAX)
  {
  }

  lemma {:induction false} BaseAfterScaled(poolBase: u64, tokenAmount: u64, isBuy: bool)
    ensures var after := if isBuy then poolBase - tokenAmount else poolBase + tokenAmount;
            BaseAfter(poolBase, tokenAmount, isBuy) == after as real / 1000000.0
  {
  }

  /** The cap after a trade: a buy takes its tokens out of the base side and adds its quote, a sell
      the other way round; nothing is left to price without a base side. */
  lemma {:induction false} MarketCapAfterTrade(poolBase: u64, poolQuote: u64, tokenAmount: u64, quoteAmount: u64,
                                               isBuy: bool, unit: real)
    requires unit > 0.0
    ensures var base := if isBuy then poolBase - tokenAmount else poolBase + tokenAmount;
            var quote := if isBuy then poolQuote + quoteAmount else poolQuote - quoteAmount;
            MarketCapInQuote(poolBase, poolQuote, tokenAmount, quoteAmount, isBuy, unit)
            == if poolBase == 0 || base <= 0 then 0
               else RoundToU64(quote as real * 1000000000000000.0 / base as real)
  {
    var base := if isBuy then poolBase - tokenAmount else poolBase + tokenAmount;
    var quote := if isBuy then poolQuote + quoteAmount else poolQuote - quoteAmount;
    MarketCapIgnoresUnit(poolBase, poolQuote, tokenAmount, quoteAmount, isBuy, unit);
    BaseAfterScaled(poolBase, tokenAmount, isBuy);
    assert QuoteAfter(poolQuote as real, quoteAmount as real, isBuy) == quote as real;
    if base > 0 {
      BaseUnitCancels(quote as real, base as real);
    }
  }
}
