/** Pairwise order of the trades of whole blocks (analysis/analyze_whole_blocks.py), per cohort,
    gap bucket and period. */
module WholeBlocks {
  import opened Dict
  import opened Prelude

  datatype Tx = Tx(id: int, mint: string, signer: string, compute: string, cuPrice: nat, cuLimit: nat,
                   cuConsumed: nat, tip: int, week: string)

  type Five = s: seq<nat> | |s| == 5 witness [0, 0, 0, 0, 0]
  type Rates = s: seq<seq<real>> | |s| == 5 witness [[], [], [], [], []]

  /** The fields of an `Agg`. */
  datatype Totals = Totals(pairs: nat, cmp: Five, wins: Five, rates: Rates, conflicts: nat, tipFirst: nat)
  const NOTHING := Totals(0, [0, 0, 0, 0, 0], [0, 0, 0, 0, 0], [[], [], [], [], []], 0, 0)

  // ----- one pair -----

  function PriorityFee(t: Tx): real {
    (t.cuPrice * t.cuLimit) as real / 1_000_000.0
  }

  function Units(t: Tx): nat {
    if t.cuConsumed != 0 then t.cuConsumed else if t.cuLimit != 0 then t.cuLimit else 1
  }

  function Values(t: Tx): (v: seq<real>)
    ensures |v| == 5
  {
    var p, tip := PriorityFee(t), t.tip as real;
    [t.cuPrice as real, p, tip, p + tip, (p + tip) / Units(t) as real]
  }

  /** The priority fees and the tips order the pair in opposite ways. */
  predicate Conflict(a: Tx, b: Tx) {
    || (PriorityFee(a) > PriorityFee(b) && a.tip < b.tip)
    || (PriorityFee(a) < PriorityFee(b) && a.tip > b.tip)
  }

  function One(b: bool): nat {
    if b then 1 else 0
  }

  function AddedPair(t: Totals, a: Tx, b: Tx): Totals {
    var v, w := Values(a), Values(b);
    Totals(t.pairs + 1,
           seq(5, i requires 0 <= i < 5 => t.cmp[i] + One(v[i] != w[i])),
           seq(5, i requires 0 <= i < 5 => t.wins[i] + One(v[i] > w[i])),
           t.rates,
           t.conflicts + One(Conflict(a, b)),
           t.tipFirst + One(Conflict(a, b) && a.tip > b.tip))
  }

  /** The slot's win rate, when it compared anything. */
  function SlotRate(wins: nat, cmp: nat): seq<real> {
    if cmp != 0 then [wins as real / cmp as real] else []
  }

  function Merged(t: Totals, o: Totals): Totals {
    Totals(t.pairs + o.pairs,
           seq(5, i requires 0 <= i < 5 => t.cmp[i] + o.cmp[i]),
           seq(5, i requires 0 <= i < 5 => t.wins[i] + o.wins[i]),
           seq(5, i requires 0 <= i < 5 => t.rates[i] + SlotRate(o.wins[i], o.cmp[i])),
           t.conflicts + o.conflicts,
           t.tipFirst + o.tipFirst)
  }

  lemma {:induction false} Directions(ap: real, bp: real, at: int, bt: int)
    ensures var prio, tip := One(ap > bp) - One(ap < bp), One(at > bt) - One(at < bt);
            && (prio != 0 && tip != 0 && prio != tip <==> (ap > bp && at < bt) || (ap < bp && at > bt))
            && (tip > 0 <==> at > bt)
  {
  }

  class Agg {
    var pairs: nat
    var cmp: Five
    var wins: Five
    var slotRates: Rates
    var tipPrioConflicts: nat
    var tipFirst: nat

    function View(): Totals
      reads this
    {
      Totals(pairs, cmp, wins, slotRates, tipPrioConflicts, tipFirst)
    }

    constructor ()
      ensures View() == NOTHING
    {
      pairs, tipPrioConflicts, tipFirst := 0, 0, 0;
      cmp, wins := [0, 0, 0, 0, 0], [0, 0, 0, 0, 0];
      slotRates := [[], [], [], [], []];
    }

    /** Both trades' values, field by field. */
    method Compare(v: seq<real>, w: seq<real>)
      requires |v| == |w| == 5
      modifies this`cmp, this`wins
      ensures cmp == seq(5, i requires 0 <= i < 5 => old(cmp[i]) + One(v[i] != w[i]))
      ensures wins == seq(5, i requires 0 <= i < 5 => old(wins[i]) + One(v[i] > w[i]))
    {
      ghost var before, won := cmp, wins;
      for i := 0 to 5
        invariant forall j :: 0 <= j < 5 ==> cmp[j] == before[j] + if j < i then One(v[j] != w[j]) else 0
        invariant forall j :: 0 <= j < 5 ==> wins[j] == won[j] + if j < i then One(v[j] > w[j]) else 0
      {
        if v[i] != w[i] {
          cmp := cmp[i := cmp[i] + 1];
          wins := wins[i := wins[i] + One(v[i] > w[i])];
        }
      }
    }

    method AddPair(a: Tx, b: Tx)
      modifies this
      ensures View() == AddedPair(old(View()), a, b)
    {
      ghost var next := AddedPair(View(), a, b);
      pairs := pairs + 1;
      Compare(Values(a), Values(b));
      var ap, bp := PriorityFee(a), PriorityFee(b);
      var prioDir := One(ap > bp) - One(ap < bp);
      var tipDir := One(a.tip > b.tip) - One(a.tip < b.tip);
      Directions(ap, bp, a.tip, b.tip);
      if prioDir != 0 && tipDir != 0 && prioDir != tipDir {
        tipPrioConflicts := tipPrioConflicts + 1;
        tipFirst := tipFirst + One(tipDir > 0);
      }
      assert cmp == next.cmp && wins == next.wins;
    }

    method MergeSlot(other: Agg)
      requires other != this
      modifies this
      ensures View() == Merged(old(View()), old(other.View()))
    {
      pairs := pairs + other.pairs;
      tipPrioConflicts := tipPrioConflicts + other.tipPrioConflicts;
      tipFirst := tipFirst + other.tipFirst;
      for i := 0 to 5
        invariant pairs == old(pairs) + other.pairs && other.View() == old(other.View())
        invariant tipPrioConflicts == old(tipPrioConflicts) + other.tipPrioConflicts
        invariant tipFirst == old(tipFirst) + other.tipFirst
        invariant forall j :: 0 <= j < 5 ==> cmp[j] == old(cmp[j]) + if j < i then other.cmp[j] else 0
        invariant forall j :: 0 <= j < 5 ==> wins[j] == old(wins[j]) + if j < i then other.wins[j] else 0
        invariant forall j :: 0 <= j < 5 ==>
          slotRates[j] == old(slotRates[j]) + if j < i then SlotRate(other.wins[j], other.cmp[j]) else []
      {
        cmp := cmp[i := cmp[i] + other.cmp[i]];
        wins := wins[i := wins[i] + other.wins[i]];
        if other.cmp[i] != 0 {
          slotRates := slotRates[i := slotRates[i] + SlotRate(other.wins[i], other.cmp[i])];
        }
      }
    }
  }

  // ----- what a win is -----

  lemma {:induction false} ScaledOrder(x: int, y: int, unit: real)
    requires unit > 0.0
    ensures x as real / unit > y as real / unit <==> x > y
  {
    var p, q := x as real / unit, y as real / unit;
    assert p * unit == x as real && q * unit == y as real;
    if p > q {
      assert (p - q) * unit > 0.0;
    }
    if x > y {
      assert (p - q) * unit > 0.0;
    }
  }

  /** The first trade of a pair wins a field if its value there is higher: unit price, priority fee,
      tip. */
  lemma {:induction false} WinsMean(t: Totals, a: Tx, b: Tx)
    ensures var n := AddedPair(t, a, b);
            && n.wins[0] == t.wins[0] + One(a.cuPrice > b.cuPrice)
            && n.wins[1] == t.wins[1] + One(a.cuPrice * a.cuLimit > b.cuPrice * b.cuLimit)
            && n.wins[2] == t.wins[2] + One(a.tip > b.tip)
  {
    ScaledOrder(a.cuPrice * a.cuLimit, b.cuPrice * b.cuLimit, 1_000_000.0);
  }

  /** A pair and the same pair turned round: each comparison is won exactly once. */
  lemma {:induction false} OneWinPerComparison(t: Totals, a: Tx, b: Tx, field: nat)
    requires field < 5
    ensures var n := AddedPair(AddedPair(t, a, b), b, a);
            n.cmp[field] - t.cmp[field] == 2 * (n.wins[field] - t.wins[field])
    ensures AddedPair(t, a, b).cmp[field] - t.cmp[field] == AddedPair(t, b, a).cmp[field] - t.cmp[field]
         == (AddedPair(t, a, b).wins[field] - t.wins[field]) + (AddedPair(t, b, a).wins[field] - t.wins[field])
  {
  }

  // ----- the pairs of a slot -----

  datatype Cohort = MintAll | MintCrossSigner | MintSameSigner | ComputeCrossSigner
  datatype Gap = UpTo4 | UpTo16 | UpTo64 | UpTo256 | Above
  datatype Load = Low | Medium | High
  datatype Period = All | Week(week: string) | ByLoad(load: Load)
  datatype Kind = AllTime | Weekly | Loads
  datatype Key = Key(cohort: Cohort, gap: Gap, period: Period)
  type Local = Dict<Key, Totals>

  function GapBucket(gap: int): Gap {
    if gap <= 4 then UpTo4 else if gap <= 16 then UpTo16 else if gap <= 64 then UpTo64
    else if gap <= 256 then UpTo256 else Above
  }

  function LoadBucket(n: nat): Load {
    if n < 25 then Low else if n < 100 then Medium else High
  }

  predicate Skipped(cohort: Cohort, a: Tx, b: Tx) {
    || ((cohort == MintCrossSigner || cohort == ComputeCrossSigner) && a.signer == b.signer)
    || (cohort == MintSameSigner && a.signer != b.signer)
  }

  function Count(d: Local, key: Key, a: Tx, b: Tx): Local {
    Put(d, key, AddedPair(LookupOr(d, key, NOTHING), a, b))
  }

  function CountPeriods(d: Local, cohort: Cohort, week: string, load: Load, a: Tx, b: Tx): Local {
    if Skipped(cohort, a, b) then d
    else
      var gap := GapBucket(b.id - a.id);
      Count(Count(Count(d, Key(cohort, gap, All), a, b), Key(cohort, gap, Week(week)), a, b),
            Key(cohort, gap, ByLoad(load)), a, b)
  }

  /** Every pair of neighbours. */
  function Processed(d: Local, s: seq<Tx>, cohort: Cohort, week: string, load: Load): Local
    decreases s
  {
    if |s| < 2 then d
    else Processed(CountPeriods(d, cohort, week, load, s[0], s[1]), s[1..], cohort, week, load)
  }

  lemma {:induction false} ProcessedStep(d: Local, s: seq<Tx>, i: nat, cohort: Cohort, week: string, load: Load)
    requires 1 <= i < |s|
    ensures Processed(d, s[i - 1..], cohort, week, load)
         == Processed(CountPeriods(d, cohort, week, load, s[i - 1], s[i]), s[i..], cohort, week, load)
  {
    var rest := s[i - 1..];
    assert rest[0] == s[i - 1] && rest[1] == s[i] && rest[1..] == s[i..];
  }

  method ProcessPair(d0: Local, cohort: Cohort, week: string, load: Load, a: Tx, b: Tx) returns (d: Local)
    ensures d == CountPeriods(d0, cohort, week, load, a, b)
  {
    d := d0;
    if !Skipped(cohort, a, b) {
      var gap := GapBucket(b.id - a.id);
      d := Count(d, Key(cohort, gap, All), a, b);
      d := Count(d, Key(cohort, gap, Week(week)), a, b);
      d := Count(d, Key(cohort, gap, ByLoad(load)), a, b);
    }
  }

  method Process(d0: Local, s: seq<Tx>, cohort: Cohort, week: string, load: Load) returns (d: Local)
    ensures d == Processed(d0, s, cohort, week, load)
  {
    d := d0;
    var i := 1;
    while i < |s|
      invariant 1 <= i && if |s| == 0 then d == d0 else i <= |s|
      invariant |s| > 0 ==> Processed(d, s[i - 1..], cohort, week, load) == Processed(d0, s, cohort, week, load)
    {
      ProcessedStep(d, s, i, cohort, week, load);
      d := ProcessPair(d, cohort, week, load, s[i - 1], s[i]);
      i := i + 1;
    }
  }

  // ----- conservation inside a slot -----

  datatype Measure = Pairs | Compared(field: nat) | Wins(field: nat) | Conflicts | TipFirst

  function Value(m: Measure, t: Totals): nat {
    match m
    case Pairs => t.pairs
    case Compared(i) => if i < 5 then t.cmp[i] else 0
    case Wins(i) => if i < 5 then t.wins[i] else 0
    case Conflicts => t.conflicts
    case TipFirst => t.tipFirst
  }

  function KindOf(p: Period): Kind {
    match p
    case All => AllTime
    case Week(_) => Weekly
    case ByLoad(_) => Loads
  }

  predicate Selected(k: Key, cohort: Cohort, gap: Gap, kind: Kind) {
    k.cohort == cohort && k.gap == gap && KindOf(k.period) == kind
  }

  /** A measure of one cohort and gap, over the periods of one kind. */
  function Of(m: Measure, cohort: Cohort, gap: Gap, kind: Kind): (Key, Totals) -> real {
    (k: Key, t: Totals) =>
      if Selected(k, cohort, gap, kind) then Value(m, t) as real else 0.0
  }

  function PairValue(m: Measure, a: Tx, b: Tx): nat {
    Value(m, AddedPair(NOTHING, a, b))
  }

  lemma {:induction false} PairAdds(m: Measure, t: Totals, a: Tx, b: Tx)
    ensures Value(m, NOTHING) == 0
    ensures Value(m, AddedPair(t, a, b)) == Value(m, t) + PairValue(m, a, b)
  {
  }

  lemma {:induction false} MergeAdds(m: Measure, t: Totals, o: Totals)
    ensures Value(m, NOTHING) == 0
    ensures Value(m, Merged(t, o)) == Value(m, t) + Value(m, o)
  {
  }

  lemma {:induction false} OfAdds(key: Key, t: Totals, a: Tx, b: Tx, m: Measure, cohort: Cohort, gap: Gap, kind: Kind)
    ensures var f := Of(m, cohort, gap, kind);
            f(key, NOTHING) == 0.0
            && f(key, AddedPair(t, a, b)) == f(key, t) + Part(key, PairValue(m, a, b), cohort, gap, kind)
  {
    PairAdds(m, t, a, b);
  }

  /** What a value counted under `key` adds to a cohort, gap and kind of period. */
  function Part(key: Key, value: nat, cohort: Cohort, gap: Gap, kind: Kind): real {
    if Selected(key, cohort, gap, kind) then value as real else 0.0
  }

  lemma {:induction false} CountTotal(d: Local, key: Key, a: Tx, b: Tx, m: Measure, cohort: Cohort, gap: Gap,
                                      kind: Kind)
    ensures Total(Count(d, key, a, b), Of(m, cohort, gap, kind))
         == Total(d, Of(m, cohort, gap, kind))
            + Part(key, PairValue(m, a, b), cohort, gap, kind)
  {
    var t := LookupOr(d, key, NOTHING);
    OfAdds(key, t, a, b, m, cohort, gap, kind);
    ShareOr(d, key, NOTHING, Of(m, cohort, gap, kind));
    TotalPut(d, key, AddedPair(t, a, b), Of(m, cohort, gap, kind));
  }

  /** Of the three periods of a pair, one is of each kind. */
  lemma {:induction false} OnePart(into: Cohort, g: Gap, week: string, load: Load, value: nat, cohort: Cohort,
                                   gap: Gap, kind: Kind)
    ensures Part(Key(into, g, All), value, cohort, gap, kind) + Part(Key(into, g, Week(week)), value, cohort, gap, kind)
            + Part(Key(into, g, ByLoad(load)), value, cohort, gap, kind)
         == if into == cohort && g == gap then value as real else 0.0
  {
  }

  function PairGain(m: Measure, a: Tx, b: Tx, cohort: Cohort, gap: Gap): nat {
    if !Skipped(cohort, a, b) && GapBucket(b.id - a.id) == gap then PairValue(m, a, b) else 0
  }

  /** What a sequence adds to a cohort, whatever the kind of period. */
  function Gain(m: Measure, s: seq<Tx>, cohort: Cohort, gap: Gap): nat {
    if |s| < 2 then 0
    else PairGain(m, s[0], s[1], cohort, gap) + Gain(m, s[1..], cohort, gap)
  }

  lemma {:induction false} PeriodsTotal(d: Local, into: Cohort, week: string, load: Load, a: Tx, b: Tx, m: Measure,
                                        cohort: Cohort, gap: Gap, kind: Kind)
    ensures Total(CountPeriods(d, into, week, load, a, b), Of(m, cohort, gap, kind))
         == Total(d, Of(m, cohort, gap, kind))
            + if into == cohort then PairGain(m, a, b, cohort, gap) as real else 0.0
  {
    if !Skipped(into, a, b) {
      var g := GapBucket(b.id - a.id);
      var all := Count(d, Key(into, g, All), a, b);
      var weekly := Count(all, Key(into, g, Week(week)), a, b);
      CountTotal(d, Key(into, g, All), a, b, m, cohort, gap, kind);
      CountTotal(all, Key(into, g, Week(week)), a, b, m, cohort, gap, kind);
      CountTotal(weekly, Key(into, g, ByLoad(load)), a, b, m, cohort, gap, kind);
      OnePart(into, g, week, load, PairValue(m, a, b), cohort, gap, kind);
    }
  }

  lemma {:induction false} ProcessedTotal(d: Local, s: seq<Tx>, into: Cohort, week: string, load: Load, m: Measure,
                                          cohort: Cohort, gap: Gap, kind: Kind)
    ensures Total(Processed(d, s, into, week, load), Of(m, cohort, gap, kind))
         == Total(d, Of(m, cohort, gap, kind)) + if into == cohort then Gain(m, s, cohort, gap) as real else 0.0
    decreases s
  {
    if |s| >= 2 {
      PeriodsTotal(d, into, week, load, s[0], s[1], m, cohort, gap, kind);
      ProcessedTotal(CountPeriods(d, into, week, load, s[0], s[1]), s[1..], into, week, load, m, cohort, gap, kind);
    }
  }

  /** Each neighbouring pair of a mint is either cross-signer or same-signer. */
  lemma {:induction false} SignersSplit(m: Measure, s: seq<Tx>, gap: Gap)
    ensures Gain(m, s, MintAll, gap) == Gain(m, s, MintCrossSigner, gap) + Gain(m, s, MintSameSigner, gap)
  {
    if |s| >= 2 {
      SignersSplit(m, s[1..], gap);
    }
  }

  // ----- a slot -----

  function ByMint(txs: seq<Tx>): Dict<string, seq<Tx>> {
    if txs == [] then []
    else
      var d, t := ByMint(txs[..|txs| - 1]), txs[|txs| - 1];
      Put(d, t.mint, LookupOr(d, t.mint, []) + [t])
  }

  function ByCompute(txs: seq<Tx>): Dict<(string, string), seq<Tx>> {
    if txs == [] then []
    else
      var d, t := ByCompute(txs[..|txs| - 1]), txs[|txs| - 1];
      if t.compute == "" then d
      else Put(d, (t.mint, t.compute), LookupOr(d, (t.mint, t.compute), []) + [t])
  }

  function MintCohorts(d: Local, groups: Dict<string, seq<Tx>>, week: string, load: Load): Local {
    if groups == [] then d
    else
      var last := |groups| - 1;
      var s := groups[last].1;
      var before := MintCohorts(d, groups[..last], week, load);
      Processed(Processed(Processed(before, s, MintAll, week, load), s, MintCrossSigner, week, load),
                s, MintSameSigner, week, load)
  }

  function ComputeCohorts(d: Local, groups: Dict<(string, string), seq<Tx>>, week: string, load: Load): Local {
    if groups == [] then d
    else
      var last := |groups| - 1;
      Processed(ComputeCohorts(d, groups[..last], week, load), groups[last].1, ComputeCrossSigner, week, load)
  }

  /** The slot's own aggregates, from its transactions in id order. */
  function SlotTotals(txs: seq<Tx>): Local
    requires txs != []
  {
    var week, load := txs[0].week, LoadBucket(|txs|);
    ComputeCohorts(MintCohorts([], ByMint(txs), week, load), ByCompute(txs), week, load)
  }

  method AggregateSlot(txs: seq<Tx>) returns (local: Local)
    requires txs != []
    ensures local == SlotTotals(txs)
  {
    var week, load := txs[0].week, LoadBucket(|txs|);
    var byMint: Dict<string, seq<Tx>> := [];
    var byCompute: Dict<(string, string), seq<Tx>> := [];
    for i := 0 to |txs|
      invariant byMint == ByMint(txs[..i]) && byCompute == ByCompute(txs[..i])
    {
      var t := txs[i];
      assert txs[..i + 1][..i] == txs[..i];
      byMint := Put(byMint, t.mint, LookupOr(byMint, t.mint, []) + [t]);
      if t.compute != "" {
        byCompute := Put(byCompute, (t.mint, t.compute), LookupOr(byCompute, (t.mint, t.compute), []) + [t]);
      }
    }
    assert txs[..|txs|] == txs;
    local := [];
    for i := 0 to |byMint|
      invariant local == MintCohorts([], byMint[..i], week, load)
    {
      var s := byMint[i].1;
      assert byMint[..i + 1][..i] == byMint[..i];
      if |s| > 1 {
        local := Process(local, s, MintAll, week, load);
        local := Process(local, s, MintCrossSigner, week, load);
        local := Process(local, s, MintSameSigner, week, load);
      }
    }
    assert byMint[..|byMint|] == byMint;
    ghost var mints := local;
    for i := 0 to |byCompute|
      invariant local == ComputeCohorts(mints, byCompute[..i], week, load)
    {
      assert byCompute[..i + 1][..i] == byCompute[..i];
      if |byCompute[i].1| > 1 {
        local := Process(local, byCompute[i].1, ComputeCrossSigner, week, load);
      }
    }
    assert byCompute[..|byCompute|] == byCompute;
  }

  function MintGain(m: Measure, groups: Dict<string, seq<Tx>>, cohort: Cohort, gap: Gap): nat {
    if groups == [] then 0
    else
      var last := |groups| - 1;
      MintGain(m, groups[..last], cohort, gap) + Gain(m, groups[last].1, cohort, gap)
  }

  function ComputeGain(m: Measure, groups: Dict<(string, string), seq<Tx>>, gap: Gap): nat {
    if groups == [] then 0
    else
      var last := |groups| - 1;
      ComputeGain(m, groups[..last], gap) + Gain(m, groups[last].1, ComputeCrossSigner, gap)
  }

  lemma {:induction false} MintTotal(d: Local, groups: Dict<string, seq<Tx>>, week: string, load: Load, m: Measure,
                                     cohort: Cohort, gap: Gap, kind: Kind)
    ensures Total(MintCohorts(d, groups, week, load), Of(m, cohort, gap, kind))
         == Total(d, Of(m, cohort, gap, kind))
            + if cohort == ComputeCrossSigner then 0.0 else MintGain(m, groups, cohort, gap) as real
  {
    if groups != [] {
      var last := |groups| - 1;
      var s := groups[last].1;
      MintTotal(d, groups[..last], week, load, m, cohort, gap, kind);
      var before := MintCohorts(d, groups[..last], week, load);
      var all := Processed(before, s, MintAll, week, load);
      var cross := Processed(all, s, MintCrossSigner, week, load);
      ProcessedTotal(before, s, MintAll, week, load, m, cohort, gap, kind);
      ProcessedTotal(all, s, MintCrossSigner, week, load, m, cohort, gap, kind);
      ProcessedTotal(cross, s, MintSameSigner, week, load, m, cohort, gap, kind);
    }
  }

  lemma {:induction false} ComputeTotal(d: Local, groups: Dict<(string, string), seq<Tx>>, week: string, load: Load,
                                        m: Measure, cohort: Cohort, gap: Gap, kind: Kind)
    ensures Total(ComputeCohorts(d, groups, week, load), Of(m, cohort, gap, kind))
         == Total(d, Of(m, cohort, gap, kind))
            + if cohort == ComputeCrossSigner then ComputeGain(m, groups, gap) as real else 0.0
  {
    if groups != [] {
      var last := |groups| - 1;
      ComputeTotal(d, groups[..last], week, load, m, cohort, gap, kind);
      ProcessedTotal(ComputeCohorts(d, groups[..last], week, load), groups[last].1, ComputeCrossSigner, week, load,
                     m, cohort, gap, kind);
    }
  }

  function SlotGain(m: Measure, txs: seq<Tx>, cohort: Cohort, gap: Gap): nat {
    if cohort == ComputeCrossSigner then ComputeGain(m, ByCompute(txs), gap)
    else MintGain(m, ByMint(txs), cohort, gap)
  }

  /** The three kinds of period hold the same total. */
  lemma {:induction false} SlotTotal(txs: seq<Tx>, m: Measure, cohort: Cohort, gap: Gap, kind: Kind)
    requires txs != []
    ensures Total(SlotTotals(txs), Of(m, cohort, gap, kind)) == SlotGain(m, txs, cohort, gap) as real
  {
    var week, load := txs[0].week, LoadBucket(|txs|);
    MintTotal([], ByMint(txs), week, load, m, cohort, gap, kind);
    ComputeTotal(MintCohorts([], ByMint(txs), week, load), ByCompute(txs), week, load, m, cohort, gap, kind);
  }

  lemma {:induction false} MintGainSplit(m: Measure, groups: Dict<string, seq<Tx>>, gap: Gap)
    ensures MintGain(m, groups, MintAll, gap)
         == MintGain(m, groups, MintCrossSigner, gap) + MintGain(m, groups, MintSameSigner, gap)
  {
    if groups != [] {
      MintGainSplit(m, groups[..|groups| - 1], gap);
      SignersSplit(m, groups[|groups| - 1].1, gap);
    }
  }

  // ----- all slots -----

  datatype Meta = Meta(leader: string, client: string)
  datatype Slot = Slot(meta: Option<Meta>, txs: seq<Tx>)
  type Global = Dict<(Meta, Key), Totals>

  function InOrder(txs: seq<Tx>): seq<Tx> {
    SortBy(txs, (t: Tx) => t.id)
  }

  function MergedAll(g: Global, meta: Meta, local: Local): Global {
    if local == [] then g
    else
      var last := |local| - 1;
      var before := MergedAll(g, meta, local[..last]);
      var key := (meta, local[last].0);
      Put(before, key, Merged(LookupOr(before, key, NOTHING), local[last].1))
  }

  /** A slot always has transactions: its list is created by its first row. */
  ghost predicate Filled(slots: seq<Slot>) {
    forall i :: 0 <= i < |slots| ==> slots[i].txs != []
  }

  lemma {:induction false} SortFilled(txs: seq<Tx>)
    requires txs != []
    ensures InOrder(txs) != []
  {
    SortKeeps(txs, (t: Tx) => t.id);
    assert txs[0] in multiset(InOrder(txs));
  }

  function Aggregated(slots: seq<Slot>): Global
    requires Filled(slots)
  {
    if slots == [] then []
    else
      var slot := slots[|slots| - 1];
      var before := Aggregated(slots[..|slots| - 1]);
      if slot.meta.None? then before
      else
        SortFilled(slot.txs);
        MergedAll(before, slot.meta.value, SlotTotals(InOrder(slot.txs)))
  }

  method MergeSlotInto(g0: Global, meta: Meta, local: Local) returns (g: Global)
    ensures g == MergedAll(g0, meta, local)
  {
    g := g0;
    for i := 0 to |local|
      invariant g == MergedAll(g0, meta, local[..i])
    {
      assert local[..i + 1][..i] == local[..i];
      var key := (meta, local[i].0);
      g := Put(g, key, Merged(LookupOr(g, key, NOTHING), local[i].1));
    }
    assert local[..|local|] == local;
  }

  method Aggregate(slots: seq<Slot>) returns (g: Global)
    requires Filled(slots)
    ensures g == Aggregated(slots)
  {
    g := [];
    for i := 0 to |slots|
      invariant g == Aggregated(slots[..i])
    {
      assert slots[..i + 1][..i] == slots[..i];
      if slots[i].meta.Some? {
        SortFilled(slots[i].txs);
        var local := AggregateSlot(InOrder(slots[i].txs));
        g := MergeSlotInto(g, slots[i].meta.value, local);
      }
    }
    assert slots[..|slots|] == slots;
  }

  /** A measure of one leader, client, cohort and gap, over the periods of one kind. */
  function OfLeader(m: Measure, meta: Meta, cohort: Cohort, gap: Gap, kind: Kind): ((Meta, Key), Totals) -> real {
    (k: (Meta, Key), t: Totals) =>
      if k.0 == meta && Selected(k.1, cohort, gap, kind) then Value(m, t) as real else 0.0
  }

  lemma {:induction false} LeaderAdds(key: (Meta, Key), t: Totals, v: Totals, m: Measure, meta: Meta, cohort: Cohort,
                                      gap: Gap, kind: Kind)
    ensures var f := OfLeader(m, meta, cohort, gap, kind);
            f(key, NOTHING) == 0.0 && f(key, Merged(t, v)) == f(key, t) + f(key, v)
  {
    MergeAdds(m, t, v);
  }

  lemma {:induction false} MergeOne(g: Global, key: (Meta, Key), v: Totals, m: Measure, meta: Meta, cohort: Cohort,
                                    gap: Gap, kind: Kind)
    ensures Total(Put(g, key, Merged(LookupOr(g, key, NOTHING), v)), OfLeader(m, meta, cohort, gap, kind))
         == Total(g, OfLeader(m, meta, cohort, gap, kind)) + OfLeader(m, meta, cohort, gap, kind)(key, v)
  {
    var t := LookupOr(g, key, NOTHING);
    LeaderAdds(key, t, v, m, meta, cohort, gap, kind);
    var w := Merged(t, v);
    TotalPut(g, key, w, OfLeader(m, meta, cohort, gap, kind));
  }

  lemma {:induction false} MergedTotal(g: Global, into: Meta, local: Local, m: Measure, meta: Meta, cohort: Cohort,
                                       gap: Gap, kind: Kind)
    ensures Total(MergedAll(g, into, local), OfLeader(m, meta, cohort, gap, kind))
         == Total(g, OfLeader(m, meta, cohort, gap, kind))
            + if into == meta then Total(local, Of(m, cohort, gap, kind)) else 0.0
  {
    if local != [] {
      var last := |local| - 1;
      MergedTotal(g, into, local[..last], m, meta, cohort, gap, kind);
      TotalOfLast(local, Of(m, cohort, gap, kind));
      MergeOne(MergedAll(g, into, local[..last]), (into, local[last].0), local[last].1, m, meta, cohort, gap, kind);
    }
  }

  /** What the slots of a leader and client add to a cohort and gap. */
  function LeaderGain(slots: seq<Slot>, m: Measure, meta: Meta, cohort: Cohort, gap: Gap): nat {
    if slots == [] then 0
    else
      var slot := slots[|slots| - 1];
      LeaderGain(slots[..|slots| - 1], m, meta, cohort, gap)
      + if slot.meta == Some(meta) then SlotGain(m, InOrder(slot.txs), cohort, gap) else 0
  }

  /** Every total is the sum over the leader's slots, so the rows of all time, of every week
      and of every load sum to the same. */
  lemma {:induction false} PeriodsConserved(slots: seq<Slot>, m: Measure, meta: Meta, cohort: Cohort, gap: Gap,
                                            kind: Kind)
    requires Filled(slots)
    ensures Total(Aggregated(slots), OfLeader(m, meta, cohort, gap, kind))
         == LeaderGain(slots, m, meta, cohort, gap) as real
  {
    if slots != [] {
      var slot, before := slots[|slots| - 1], slots[..|slots| - 1];
      PeriodsConserved(before, m, meta, cohort, gap, kind);
      if slot.meta.Some? {
        SortFilled(slot.txs);
        SlotTotal(InOrder(slot.txs), m, cohort, gap, kind);
        MergedTotal(Aggregated(before), slot.meta.value, SlotTotals(InOrder(slot.txs)), m, meta, cohort, gap, kind);
      }
    }
  }

  lemma {:induction false} LeaderGainSplit(slots: seq<Slot>, m: Measure, meta: Meta, gap: Gap)
    ensures LeaderGain(slots, m, meta, MintAll, gap)
         == LeaderGain(slots, m, meta, MintCrossSigner, gap) + LeaderGain(slots, m, meta, MintSameSigner, gap)
  {
    if slots != [] {
      LeaderGainSplit(slots[..|slots| - 1], m, meta, gap);
      MintGainSplit(m, ByMint(InOrder(slots[|slots| - 1].txs)), gap);
    }
  }

  /** For every gap and kind of period, all pairs of a mint are the cross-signer pairs and the
      same-signer pairs together. */
  lemma {:induction false} CohortsConserved(slots: seq<Slot>, m: Measure, meta: Meta, gap: Gap, kind: Kind)
    requires Filled(slots)
    ensures Total(Aggregated(slots), OfLeader(m, meta, MintAll, gap, kind))
         == Total(Aggregated(slots), OfLeader(m, meta, MintCrossSigner, gap, kind))
            + Total(Aggregated(slots), OfLeader(m, meta, MintSameSigner, gap, kind))
  {
    PeriodsConserved(slots, m, meta, MintAll, gap, kind);
    PeriodsConserved(slots, m, meta, MintCrossSigner, gap, kind);
    PeriodsConserved(slots, m, meta, MintSameSigner, gap, kind);
    LeaderGainSplit(slots, m, meta, gap);
  }
}
