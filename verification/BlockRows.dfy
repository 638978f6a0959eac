/** Every row of the whole-block table (analysis/analyze_whole_blocks.py), as a sum over the slots
    of its leader and the neighbouring transactions inside them. */
module BlockRows {
  import opened Dict
  import Prelude
  import opened WholeBlocks
  import opened SlotRates

  // ----- what one pair is worth -----

  /** Priority fee in millionths. */
  function Fee(t: Tx): int {
    t.cuPrice * t.cuLimit
  }

  function Paid(t: Tx): int {
    Fee(t) + 1_000_000 * t.tip
  }

  /** The compute units a fee per unit is taken over: those consumed, else the limit, else one. */
  function Over(t: Tx): (u: nat)
    ensures u > 0
  {
    if t.cuConsumed > 0 then t.cuConsumed else if t.cuLimit > 0 then t.cuLimit else 1
  }

  /** `a` offers more than `b`: unit price, priority fee, tip, both together, both per unit. */
  predicate Higher(field: nat, a: Tx, b: Tx) {
    match field
    case 0 => a.cuPrice > b.cuPrice
    case 1 => Fee(a) > Fee(b)
    case 2 => a.tip > b.tip
    case 3 => Paid(a) > Paid(b)
    case _ => Paid(a) * Over(b) > Paid(b) * Over(a)
  }

  /** Fee and tip disagree, and the tip comes first. */
  predicate TipAgainstFee(a: Tx, b: Tx) {
    Higher(2, a, b) && Higher(1, b, a)
  }

  function PairDue(m: Measure, a: Tx, b: Tx): nat {
    match m
    case Pairs => 1
    case Compared(i) => if i < 5 && (Higher(i, a, b) || Higher(i, b, a)) then 1 else 0
    case Wins(i) => if i < 5 && Higher(i, a, b) then 1 else 0
    case Conflicts => if TipAgainstFee(a, b) || TipAgainstFee(b, a) then 1 else 0
    case TipFirst => if TipAgainstFee(a, b) then 1 else 0
  }

  lemma {:induction false} SumScaled(fee: int, tip: int)
    ensures fee as real / 1_000_000.0 + tip as real == (fee + 1_000_000 * tip) as real / 1_000_000.0
  {
  }

  lemma {:induction false} RatioOrder(x: int, y: int, u: nat, v: nat)
    requires u > 0 && v > 0
    ensures x as real / 1_000_000.0 / u as real > y as real / 1_000_000.0 / v as real <==> x * v > y * u
  {
    var p, q := x as real / 1_000_000.0 / u as real, y as real / 1_000_000.0 / v as real;
    var unit := 1_000_000.0 * (u as real * v as real);
    Unscaled(x as real, u as real, v as real);
    Unscaled(y as real, v as real, u as real);
    assert p * unit == (x * v) as real && q * unit == (y * u) as real;
    Positive(u as real, v as real);
    if p > q {
      Scaled(p, q, unit);
    } else {
      Scaled(q, p, unit);
    }
  }

  lemma {:induction false} Unscaled(x: real, u: real, v: real)
    requires u > 0.0 && v > 0.0
    ensures x / 1_000_000.0 / u * (1_000_000.0 * (u * v)) == x * v
  {
    var r := x / 1_000_000.0 / u;
    assert r * u == x / 1_000_000.0;
    assert r * (1_000_000.0 * (u * v)) == r * u * 1_000_000.0 * v;
  }

  lemma {:induction false} Positive(u: real, v: real)
    requires u > 0.0 && v > 0.0
    ensures 1_000_000.0 * (u * v) > 0.0
  {
  }

  lemma {:induction false} Scaled(p: real, q: real, unit: real)
    requires unit > 0.0 && p >= q
    ensures p * unit >= q * unit && (p > q ==> p * unit > q * unit)
  {
    assert (p - q) * unit >= 0.0;
  }

  /** Field by field, the script's values order a pair that way. */
  lemma {:induction false} ValuesOrder(a: Tx, b: Tx, field: nat)
    requires field < 5
    ensures Values(a)[field] > Values(b)[field] <==> Higher(field, a, b)
  {
    ScaledOrder(Fee(a), Fee(b), 1_000_000.0);
    SumScaled(Fee(a), a.tip);
    SumScaled(Fee(b), b.tip);
    ScaledOrder(Paid(a), Paid(b), 1_000_000.0);
    RatioOrder(Paid(a), Paid(b), Over(a), Over(b));
  }

  lemma {:induction false} PairIsDue(m: Measure, a: Tx, b: Tx)
    ensures PairValue(m, a, b) == PairDue(m, a, b)
  {
    if (m.Compared? || m.Wins?) && m.field < 5 {
      ValuesOrder(a, b, m.field);
      ValuesOrder(b, a, m.field);
    }
    ScaledOrder(Fee(a), Fee(b), 1_000_000.0);
    ScaledOrder(Fee(b), Fee(a), 1_000_000.0);
  }

  // ----- which pairs count -----

  /** The distance of two ids falls in the bucket. */
  predicate InGap(gap: Gap, n: int) {
    match gap
    case UpTo4 => n <= 4
    case UpTo16 => 5 <= n <= 16
    case UpTo64 => 17 <= n <= 64
    case UpTo256 => 65 <= n <= 256
    case Above => n >= 257
  }

  predicate InCohort(cohort: Cohort, a: Tx, b: Tx) {
    match cohort
    case MintAll => true
    case MintSameSigner => a.signer == b.signer
    case MintCrossSigner => a.signer != b.signer
    case ComputeCrossSigner => a.signer != b.signer
  }

  function Worth(m: Measure, a: Tx, b: Tx, cohort: Cohort, gap: Gap): nat {
    if InCohort(cohort, a, b) && InGap(gap, b.id - a.id) then PairDue(m, a, b) else 0
  }

  lemma {:induction false} GainIsWorth(m: Measure, a: Tx, b: Tx, cohort: Cohort, gap: Gap)
    ensures PairGain(m, a, b, cohort, gap) == Worth(m, a, b, cohort, gap)
  {
    PairIsDue(m, a, b);
  }

  // ----- neighbours inside a group -----

  /** The transactions of a slot, grouped under the keys `key` gives them. */
  function Grouped<K(==)>(txs: seq<Tx>, key: Tx -> Prelude.Option<K>): Dict<K, seq<Tx>> {
    if txs == [] then []
    else
      var d, t := Grouped(txs[..|txs| - 1], key), txs[|txs| - 1];
      match key(t)
      case None => d
      case Some(k) => Put(d, k, LookupOr(d, k, []) + [t])
  }

  function MintOf(): Tx -> Prelude.Option<string> {
    (t: Tx) => Prelude.Some(t.mint)
  }

  function ComputeOf(): Tx -> Prelude.Option<(string, string)> {
    (t: Tx) => if t.compute == "" then Prelude.None else Prelude.Some((t.mint, t.compute))
  }

  lemma {:induction false} MintsAreGrouped(txs: seq<Tx>)
    ensures ByMint(txs) == Grouped(txs, MintOf())
  {
    if txs != [] {
      MintsAreGrouped(txs[..|txs| - 1]);
    }
  }

  lemma {:induction false} ComputesAreGrouped(txs: seq<Tx>)
    ensures ByCompute(txs) == Grouped(txs, ComputeOf())
  {
    if txs != [] {
      ComputesAreGrouped(txs[..|txs| - 1]);
    }
  }

  /** Transaction `i` is the last one before `upto` with this key. */
  ghost predicate LastWith<K>(txs: seq<Tx>, key: Tx -> Prelude.Option<K>, k: K, upto: nat, i: nat) {
    && i < upto <= |txs| && key(txs[i]) == Prelude.Some(k)
    && forall j :: i < j < upto ==> key(txs[j]) != Prelude.Some(k)
  }

  /** Its position, if there is one. */
  function LastBefore<K(==)>(txs: seq<Tx>, key: Tx -> Prelude.Option<K>, k: K, upto: nat): (r: Prelude.Option<nat>)
    requires upto <= |txs|
    ensures r.Some? ==> LastWith(txs, key, k, upto, r.value)
    ensures r.None? ==> forall j :: 0 <= j < upto ==> key(txs[j]) != Prelude.Some(k)
  {
    if upto == 0 then Prelude.None
    else if key(txs[upto - 1]) == Prelude.Some(k) then Prelude.Some(upto - 1)
    else LastBefore(txs, key, k, upto - 1)
  }

  /** What transaction `j` adds: the pair with its predecessor in its group. */
  function Added<K(==)>(m: Measure, txs: seq<Tx>, key: Tx -> Prelude.Option<K>, j: nat, cohort: Cohort, gap: Gap): nat
    requires j < |txs|
  {
    match key(txs[j])
    case None => 0
    case Some(k) =>
      match LastBefore(txs, key, k, j)
      case None => 0
      case Some(i) => Worth(m, txs[i], txs[j], cohort, gap)
  }

  function AddedUpTo<K(==)>(m: Measure, txs: seq<Tx>, key: Tx -> Prelude.Option<K>, n: nat, cohort: Cohort,
                            gap: Gap): nat
    requires n <= |txs|
  {
    if n == 0 then 0 else AddedUpTo(m, txs, key, n - 1, cohort, gap) + Added(m, txs, key, n - 1, cohort, gap)
  }

  /** What a group is worth. */
  function GroupGain<K>(m: Measure, cohort: Cohort, gap: Gap): (K, seq<Tx>) -> real {
    (k: K, s: seq<Tx>) => Gain(m, s, cohort, gap) as real
  }

  lemma {:induction false} GainPush(m: Measure, s: seq<Tx>, t: Tx, cohort: Cohort, gap: Gap)
    ensures Gain(m, s + [t], cohort, gap)
         == Gain(m, s, cohort, gap) + if s == [] then 0 else Worth(m, s[|s| - 1], t, cohort, gap)
  {
    if |s| == 1 {
      var all := s + [t];
      assert all[0] == s[0] && all[1] == t && all[1..] == [t];
      GainIsWorth(m, s[0], t, cohort, gap);
    } else if |s| > 1 {
      var all := s + [t];
      assert all[0] == s[0] && all[1] == s[1] && all[1..] == s[1..] + [t];
      GainPush(m, s[1..], t, cohort, gap);
    }
  }

  /** A group ends with the last transaction of its key. */
  lemma {:induction false} GroupEnds<K>(txs: seq<Tx>, key: Tx -> Prelude.Option<K>, k: K)
    ensures match LastBefore(txs, key, k, |txs|)
            case None => Lookup(Grouped(txs, key), k) == Prelude.None
            case Some(i) =>
              && Lookup(Grouped(txs, key), k).Some?
              && var s := Lookup(Grouped(txs, key), k).value; s != [] && s[|s| - 1] == txs[i]
  {
    if txs != [] {
      var init, t := txs[..|txs| - 1], txs[|txs| - 1];
      GroupEnds(init, key, k);
      SameBefore(txs, key, k, |init|);
      if key(t).Some? {
        LookupPut(Grouped(init, key), key(t).value, LookupOr(Grouped(init, key), key(t).value, []) + [t], k);
      }
    }
  }

  lemma {:induction false} SameBefore<K>(txs: seq<Tx>, key: Tx -> Prelude.Option<K>, k: K, n: nat)
    requires n < |txs|
    ensures LastBefore(txs[..|txs| - 1], key, k, n) == LastBefore(txs, key, k, n)
  {
    if n > 0 {
      SameBefore(txs, key, k, n - 1);
    }
  }

  lemma {:induction false} SameAdded<K>(m: Measure, txs: seq<Tx>, key: Tx -> Prelude.Option<K>, n: nat, cohort: Cohort,
                                        gap: Gap)
    requires n < |txs|
    ensures AddedUpTo(m, txs[..|txs| - 1], key, n, cohort, gap) == AddedUpTo(m, txs, key, n, cohort, gap)
  {
    if n > 0 {
      SameAdded(m, txs, key, n - 1, cohort, gap);
      if key(txs[n - 1]).Some? {
        SameBefore(txs, key, key(txs[n - 1]).value, n - 1);
      }
    }
  }

  lemma {:induction false} GroupPut<K>(m: Measure, d: Dict<K, seq<Tx>>, k: K, t: Tx, cohort: Cohort, gap: Gap)
    ensures var s := LookupOr(d, k, []);
            Total(Put(d, k, s + [t]), GroupGain(m, cohort, gap))
            == Total(d, GroupGain(m, cohort, gap))
               + (if s == [] then 0 else Worth(m, s[|s| - 1], t, cohort, gap)) as real
  {
    var s := LookupOr(d, k, []);
    ShareOr(d, k, [], GroupGain(m, cohort, gap));
    TotalPut(d, k, s + [t], GroupGain(m, cohort, gap));
    GainPush(m, s, t, cohort, gap);
  }

  lemma {:induction false} AddedIs<K>(m: Measure, txs: seq<Tx>, key: Tx -> Prelude.Option<K>, k: K, cohort: Cohort,
                                      gap: Gap)
    requires txs != [] && key(txs[|txs| - 1]) == Prelude.Some(k)
    ensures var s := LookupOr(Grouped(txs[..|txs| - 1], key), k, []);
            Added(m, txs, key, |txs| - 1, cohort, gap)
            == if s == [] then 0 else Worth(m, s[|s| - 1], txs[|txs| - 1], cohort, gap)
  {
    GroupEnds(txs[..|txs| - 1], key, k);
    SameBefore(txs, key, k, |txs| - 1);
  }

  lemma {:induction false} GroupsGrow<K>(m: Measure, txs: seq<Tx>, key: Tx -> Prelude.Option<K>, cohort: Cohort,
                                         gap: Gap)
    requires txs != []
    ensures Total(Grouped(txs, key), GroupGain(m, cohort, gap))
         == Total(Grouped(txs[..|txs| - 1], key), GroupGain(m, cohort, gap))
            + Added(m, txs, key, |txs| - 1, cohort, gap) as real
  {
    var d, t := Grouped(txs[..|txs| - 1], key), txs[|txs| - 1];
    if key(t).Some? {
      GroupPut(m, d, key(t).value, t, cohort, gap);
      AddedIs(m, txs, key, key(t).value, cohort, gap);
    }
  }

  /** Group by group and transaction by transaction are the same. */
  lemma {:induction false} GroupsAreNeighbours<K>(m: Measure, txs: seq<Tx>, key: Tx -> Prelude.Option<K>,
                                                  cohort: Cohort, gap: Gap)
    ensures Total(Grouped(txs, key), GroupGain(m, cohort, gap)) == AddedUpTo(m, txs, key, |txs|, cohort, gap) as real
  {
    if txs != [] {
      GroupsAreNeighbours(m, txs[..|txs| - 1], key, cohort, gap);
      GroupsGrow(m, txs, key, cohort, gap);
      SameAdded(m, txs, key, |txs| - 1, cohort, gap);
    }
  }

  lemma {:induction false} MintGainIsTotal(m: Measure, groups: Dict<string, seq<Tx>>, cohort: Cohort, gap: Gap)
    ensures MintGain(m, groups, cohort, gap) as real == Total(groups, GroupGain(m, cohort, gap))
  {
    if groups != [] {
      MintGainIsTotal(m, groups[..|groups| - 1], cohort, gap);
      TotalOfLast(groups, GroupGain(m, cohort, gap));
    }
  }

  lemma {:induction false} ComputeGainIsTotal(m: Measure, groups: Dict<(string, string), seq<Tx>>, gap: Gap)
    ensures ComputeGain(m, groups, gap) as real == Total(groups, GroupGain(m, ComputeCrossSigner, gap))
  {
    if groups != [] {
      ComputeGainIsTotal(m, groups[..|groups| - 1], gap);
      TotalOfLast(groups, GroupGain(m, ComputeCrossSigner, gap));
    }
  }

  /** What the neighbours of a slot are worth: those of one mint, or of one mint and compute
      account. */
  function SlotDue(m: Measure, txs: seq<Tx>, cohort: Cohort, gap: Gap): nat {
    if cohort == ComputeCrossSigner then AddedUpTo(m, txs, ComputeOf(), |txs|, cohort, gap)
    else AddedUpTo(m, txs, MintOf(), |txs|, cohort, gap)
  }

  lemma {:induction false} SlotGainIsDue(m: Measure, txs: seq<Tx>, cohort: Cohort, gap: Gap)
    ensures SlotGain(m, txs, cohort, gap) == SlotDue(m, txs, cohort, gap)
  {
    if cohort == ComputeCrossSigner {
      ComputesAreGrouped(txs);
      ComputeGainIsTotal(m, ByCompute(txs), gap);
      GroupsAreNeighbours(m, txs, ComputeOf(), cohort, gap);
    } else {
      MintsAreGrouped(txs);
      MintGainIsTotal(m, ByMint(txs), cohort, gap);
      GroupsAreNeighbours(m, txs, MintOf(), cohort, gap);
    }
  }

  // ----- the rows of a slot -----

  predicate InLoad(load: Load, n: nat) {
    match load
    case Low => n <= 24
    case Medium => 25 <= n <= 99
    case High => n >= 100
  }

  /** The periods a slot counts in: all time, its week, its load. */
  predicate SlotIn(txs: seq<Tx>, period: Period)
    requires txs != []
  {
    match period
    case All => true
    case Week(w) => w == txs[0].week
    case ByLoad(l) => InLoad(l, |txs|)
  }

  function RowValue(m: Measure, d: Local, key: Key): nat {
    Value(m, LookupOr(d, key, NOTHING))
  }

  lemma {:induction false} SlotIsUniform(txs: seq<Tx>)
    requires txs != []
    ensures Uniform(SlotTotals(txs), txs[0].week, LoadBucket(|txs|))
  {
    var week, load := txs[0].week, LoadBucket(|txs|);
    MintsKeepUniform([], ByMint(txs), week, load);
    ComputesKeepUniform(MintCohorts([], ByMint(txs), week, load), ByCompute(txs), week, load);
  }

  /** A row of all time is all its kind of period holds. */
  lemma {:induction false} AllTimeRow(d: Local, week: string, load: Load, m: Measure, cohort: Cohort, gap: Gap)
    requires Uniform(d, week, load)
    ensures Total(d, Of(m, cohort, gap, AllTime)) == RowValue(m, d, Key(cohort, gap, All)) as real
  {
    var f, key := Of(m, cohort, gap, AllTime), Key(cohort, gap, All);
    forall i | 0 <= i < |d| && d[i].0 != key ensures f(d[i].0, d[i].1) == 0.0 {
      var k := d[i].0;
      assert k == Key(k.cohort, k.gap, k.period);
      assert Selected(k, cohort, gap, AllTime) ==> k.period == All;
    }
    assert Selected(key, cohort, gap, AllTime);
    TotalOfOne(d, key, f);
    MergeAdds(m, NOTHING, NOTHING);
    ShareOr(d, key, NOTHING, f);
  }

  lemma {:induction false} NoSuchPeriod(d: Local, week: string, load: Load, key: Key)
    requires Uniform(d, week, load) && key.period != PeriodOf(KindOf(key.period), week, load)
    ensures Lookup(d, key) == Prelude.None
  {
    forall i | 0 <= i < |d| ensures d[i].0 != key {
      assert d[i].0.period == PeriodOf(KindOf(d[i].0.period), week, load);
    }
    Absent(d, key);
  }

  lemma {:induction false} OwnPeriods(txs: seq<Tx>, period: Period)
    requires txs != []
    ensures SlotIn(txs, period) <==> period == PeriodOf(KindOf(period), txs[0].week, LoadBucket(|txs|))
  {
  }

  lemma {:induction false} OwnRow(txs: seq<Tx>, m: Measure, key: Key)
    requires txs != [] && key.period == PeriodOf(KindOf(key.period), txs[0].week, LoadBucket(|txs|))
    ensures RowValue(m, SlotTotals(txs), key) == SlotDue(m, txs, key.cohort, key.gap)
  {
    var d, week, load := SlotTotals(txs), txs[0].week, LoadBucket(|txs|);
    SlotIsUniform(txs);
    assert key == Key(key.cohort, key.gap, PeriodOf(KindOf(key.period), week, load));
    assert Lookup(d, key) == Lookup(d, Key(key.cohort, key.gap, All));
    AllTimeRow(d, week, load, m, key.cohort, key.gap);
    SlotTotal(txs, m, key.cohort, key.gap, AllTime);
    SlotGainIsDue(m, txs, key.cohort, key.gap);
  }

  /** Every row of a slot holds what its neighbours are worth, in the slot's own periods. */
  lemma {:induction false} SlotRow(txs: seq<Tx>, m: Measure, key: Key)
    requires txs != []
    ensures RowValue(m, SlotTotals(txs), key)
         == if SlotIn(txs, key.period) then SlotDue(m, txs, key.cohort, key.gap) else 0
  {
    OwnPeriods(txs, key.period);
    if SlotIn(txs, key.period) {
      OwnRow(txs, m, key);
    } else {
      SlotIsUniform(txs);
      NoSuchPeriod(SlotTotals(txs), txs[0].week, LoadBucket(|txs|), key);
      MergeAdds(m, NOTHING, NOTHING);
    }
  }

  // ----- the rows of the table -----

  /** Merging a slot touches exactly its own rows, under its leader and client. */
  lemma {:induction false} MergedAt(g: Global, meta: Meta, local: Local, k: (Meta, Key))
    requires Keyed(local)
    ensures LookupOr(MergedAll(g, meta, local), k, NOTHING)
         == if k.0 == meta && Lookup(local, k.1).Some?
            then Merged(LookupOr(g, k, NOTHING), Lookup(local, k.1).value) else LookupOr(g, k, NOTHING)
  {
    if local != [] {
      var last := |local| - 1;
      var before := MergedAll(g, meta, local[..last]);
      var key := (meta, local[last].0);
      MergedAt(g, meta, local[..last], k);
      LookupPut(before, key, Merged(LookupOr(before, key, NOTHING), local[last].1), k);
      LookupLast(local, k.1);
      if local[last].0 == k.1 {
        Absent(local[..last], k.1);
      }
    }
  }

  /** The slots of a leader and client that count in a period, with their transactions by id. */
  function SlotsOf(slots: seq<Slot>, meta: Meta, period: Period): (r: seq<seq<Tx>>)
    requires Filled(slots)
  {
    if slots == [] then []
    else
      var slot := slots[|slots| - 1];
      SortFilled(slot.txs);
      SlotsOf(slots[..|slots| - 1], meta, period)
      + if slot.meta == Prelude.Some(meta) && SlotIn(InOrder(slot.txs), period) then [InOrder(slot.txs)] else []
  }

  function SumDue(slots: seq<seq<Tx>>, m: Measure, cohort: Cohort, gap: Gap): nat {
    if slots == [] then 0
    else SumDue(slots[..|slots| - 1], m, cohort, gap) + SlotDue(m, slots[|slots| - 1], cohort, gap)
  }

  lemma {:induction false} ById(txs: seq<Tx>)
    ensures Sorted(InOrder(txs), (t: Tx) => t.id) && multiset(InOrder(txs)) == multiset(txs)
  {
    SortSorted(txs, (t: Tx) => t.id);
    SortKeeps(txs, (t: Tx) => t.id);
  }

  lemma {:induction false} RowGrows(g: Global, meta: Meta, txs: seq<Tx>, m: Measure, k: (Meta, Key))
    requires txs != []
    ensures Value(m, LookupOr(MergedAll(g, meta, SlotTotals(txs)), k, NOTHING))
         == Value(m, LookupOr(g, k, NOTHING))
            + if k.0 == meta && SlotIn(txs, k.1.period) then SlotDue(m, txs, k.1.cohort, k.1.gap) else 0
  {
    var local, row := SlotTotals(txs), LookupOr(g, k, NOTHING);
    SlotIsUniform(txs);
    MergedAt(g, meta, local, k);
    SlotRow(txs, m, k.1);
    MergeAdds(m, row, LookupOr(local, k.1, NOTHING));
  }

  /** Every row of the table sums its leader's slots of its period. */
  lemma {:induction false} RowsAreSums(slots: seq<Slot>, m: Measure, meta: Meta, key: Key)
    requires Filled(slots)
    ensures Value(m, LookupOr(Aggregated(slots), (meta, key), NOTHING))
         == SumDue(SlotsOf(slots, meta, key.period), m, key.cohort, key.gap)
  {
    if slots == [] {
      MergeAdds(m, NOTHING, NOTHING);
    } else {
      var slot, before := slots[|slots| - 1], slots[..|slots| - 1];
      RowsAreSums(before, m, meta, key);
      if slot.meta.Some? {
        SortFilled(slot.txs);
        RowGrows(Aggregated(before), slot.meta.value, InOrder(slot.txs), m, (meta, key));
      }
      SumOfLast(slots, m, meta, key);
    }
  }

  lemma {:induction false} SumOfLast(slots: seq<Slot>, m: Measure, meta: Meta, key: Key)
    requires Filled(slots) && slots != []
    ensures var slot := slots[|slots| - 1];
            InOrder(slot.txs) != []
            && SumDue(SlotsOf(slots, meta, key.period), m, key.cohort, key.gap)
               == SumDue(SlotsOf(slots[..|slots| - 1], meta, key.period), m, key.cohort, key.gap)
                  + if slot.meta == Prelude.Some(meta) && SlotIn(InOrder(slot.txs), key.period)
                    then SlotDue(m, InOrder(slot.txs), key.cohort, key.gap) else 0
  {
    var txs := InOrder(slots[|slots| - 1].txs);
    var rest := SlotsOf(slots[..|slots| - 1], meta, key.period);
    SortFilled(slots[|slots| - 1].txs);
    assert (rest + [txs])[..|rest|] == rest && (rest + [txs])[|rest|] == txs;
    assert rest + [] == rest;
  }

  // ----- the rates of a row -----

  /** The win rate of every slot that compared anything, in slot order. */
  function SlotRateList(slots: seq<seq<Tx>>, cohort: Cohort, gap: Gap, field: nat): seq<real> {
    if slots == [] then []
    else
      var txs := slots[|slots| - 1];
      var won, compared := SlotDue(Wins(field), txs, cohort, gap), SlotDue(Compared(field), txs, cohort, gap);
      SlotRateList(slots[..|slots| - 1], cohort, gap, field)
      + if compared > 0 then [won as real / compared as real] else []
  }

  lemma {:induction false} RatesGrow(g: Global, meta: Meta, txs: seq<Tx>, k: (Meta, Key), field: nat)
    requires txs != [] && field < 5
    ensures LookupOr(MergedAll(g, meta, SlotTotals(txs)), k, NOTHING).rates[field]
         == LookupOr(g, k, NOTHING).rates[field]
            + if k.0 == meta && SlotIn(txs, k.1.period) && SlotDue(Compared(field), txs, k.1.cohort, k.1.gap) > 0
              then [SlotDue(Wins(field), txs, k.1.cohort, k.1.gap) as real
                    / SlotDue(Compared(field), txs, k.1.cohort, k.1.gap) as real] else []
  {
    var local := SlotTotals(txs);
    SlotIsUniform(txs);
    MergedAt(g, meta, local, k);
    SlotRow(txs, Wins(field), k.1);
    SlotRow(txs, Compared(field), k.1);
    var r := LookupOr(g, k, NOTHING).rates[field];
    assert r + [] == r;
  }

  /** Every row lists the rates of its leader's slots of its period, slot by slot. */
  lemma {:induction false} RatesAreSlotRates(slots: seq<Slot>, meta: Meta, key: Key, field: nat)
    requires Filled(slots) && field < 5
    ensures LookupOr(Aggregated(slots), (meta, key), NOTHING).rates[field]
         == SlotRateList(SlotsOf(slots, meta, key.period), key.cohort, key.gap, field)
  {
    if slots != [] {
      var slot, before := slots[|slots| - 1], slots[..|slots| - 1];
      RatesAreSlotRates(before, meta, key, field);
      SortFilled(slot.txs);
      if slot.meta.Some? {
        RatesGrow(Aggregated(before), slot.meta.value, InOrder(slot.txs), (meta, key), field);
      }
      RatesOfLast(slots, meta, key, field);
    }
  }

  lemma {:induction false} RatesOfLast(slots: seq<Slot>, meta: Meta, key: Key, field: nat)
    requires Filled(slots) && slots != [] && field < 5
    ensures var slot := slots[|slots| - 1];
            InOrder(slot.txs) != []
            && SlotRateList(SlotsOf(slots, meta, key.period), key.cohort, key.gap, field)
               == SlotRateList(SlotsOf(slots[..|slots| - 1], meta, key.period), key.cohort, key.gap, field)
                  + if slot.meta == Prelude.Some(meta) && SlotIn(InOrder(slot.txs), key.period)
                       && SlotDue(Compared(field), InOrder(slot.txs), key.cohort, key.gap) > 0
                    then [SlotDue(Wins(field), InOrder(slot.txs), key.cohort, key.gap) as real
                          / SlotDue(Compared(field), InOrder(slot.txs), key.cohort, key.gap) as real] else []
  {
    var txs := InOrder(slots[|slots| - 1].txs);
    var rest := SlotsOf(slots[..|slots| - 1], meta, key.period);
    SortFilled(slots[|slots| - 1].txs);
    assert (rest + [txs])[..|rest|] == rest && (rest + [txs])[|rest|] == txs;
    assert rest + [] == rest;
    var rates := SlotRateList(rest, key.cohort, key.gap, field);
    assert rates + [] == rates;
  }
}
