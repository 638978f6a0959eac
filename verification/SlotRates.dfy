/** The per-slot win rates of analysis/analyze_whole_blocks.py, which its intervals are drawn from. */
module SlotRates {
  import opened Dict
  import Prelude
  import opened WholeBlocks

  /** The periods of a slot, one of each kind. */
  function PeriodOf(kind: Kind, week: string, load: Load): Period {
    match kind
    case AllTime => All
    case Weekly => Week(week)
    case Loads => ByLoad(load)
  }

  /** Inside a slot the three periods of a cohort and gap hold the same totals. */
  ghost predicate Uniform(d: Local, week: string, load: Load) {
    && Keyed(d)
    && (forall i :: 0 <= i < |d| ==> d[i].0.period == PeriodOf(KindOf(d[i].0.period), week, load))
    && (forall cohort, gap, kind ::
          Lookup(d, Key(cohort, gap, PeriodOf(kind, week, load))) == Lookup(d, Key(cohort, gap, All)))
  }

  lemma {:induction false} PutPeriods(d: Local, key: Key, v: Totals, week: string, load: Load)
    requires forall i :: 0 <= i < |d| ==> d[i].0.period == PeriodOf(KindOf(d[i].0.period), week, load)
    requires key.period == PeriodOf(KindOf(key.period), week, load)
    ensures forall i :: 0 <= i < |Put(d, key, v)| ==>
              Put(d, key, v)[i].0.period == PeriodOf(KindOf(Put(d, key, v)[i].0.period), week, load)
  {
    if d != [] && d[0].0 != key {
      assert forall i :: 0 <= i < |d| - 1 ==> d[1..][i] == d[i + 1];
      PutPeriods(d[1..], key, v, week, load);
      var rest := Put(d[1..], key, v);
      assert forall i :: 0 < i < |Put(d, key, v)| ==> Put(d, key, v)[i] == rest[i - 1];
    }
  }

  /** Counting a pair under its three periods. */
  lemma {:induction false} PeriodsLookup(d: Local, cohort: Cohort, week: string, load: Load, a: Tx, b: Tx, q: Key)
    requires !Skipped(cohort, a, b)
    ensures var gap := GapBucket(b.id - a.id);
            Lookup(CountPeriods(d, cohort, week, load, a, b), q)
            == if q == Key(cohort, gap, All) || q == Key(cohort, gap, Week(week)) || q == Key(cohort, gap, ByLoad(load))
               then Prelude.Some(AddedPair(LookupOr(d, q, NOTHING), a, b)) else Lookup(d, q)
  {
    var gap := GapBucket(b.id - a.id);
    var k1, k2, k3 := Key(cohort, gap, All), Key(cohort, gap, Week(week)), Key(cohort, gap, ByLoad(load));
    var d1 := Count(d, k1, a, b);
    var d2 := Count(d1, k2, a, b);
    LookupPut(d, k1, AddedPair(LookupOr(d, k1, NOTHING), a, b), k2);
    LookupPut(d, k1, AddedPair(LookupOr(d, k1, NOTHING), a, b), k3);
    LookupPut(d, k1, AddedPair(LookupOr(d, k1, NOTHING), a, b), q);
    LookupPut(d1, k2, AddedPair(LookupOr(d1, k2, NOTHING), a, b), k3);
    LookupPut(d1, k2, AddedPair(LookupOr(d1, k2, NOTHING), a, b), q);
    LookupPut(d2, k3, AddedPair(LookupOr(d2, k3, NOTHING), a, b), q);
  }

  lemma {:induction false} CountKeeps(d: Local, key: Key, a: Tx, b: Tx, week: string, load: Load)
    requires Keyed(d) && key.period == PeriodOf(KindOf(key.period), week, load)
    requires forall i :: 0 <= i < |d| ==> d[i].0.period == PeriodOf(KindOf(d[i].0.period), week, load)
    ensures var r := Count(d, key, a, b);
            Keyed(r) && forall i :: 0 <= i < |r| ==> r[i].0.period == PeriodOf(KindOf(r[i].0.period), week, load)
  {
    PutKeyed(d, key, AddedPair(LookupOr(d, key, NOTHING), a, b));
    PutPeriods(d, key, AddedPair(LookupOr(d, key, NOTHING), a, b), week, load);
  }

  lemma {:induction false} PeriodsKeepUniform(d: Local, cohort: Cohort, week: string, load: Load, a: Tx, b: Tx)
    requires Uniform(d, week, load)
    ensures Uniform(CountPeriods(d, cohort, week, load, a, b), week, load)
  {
    if !Skipped(cohort, a, b) {
      var gap := GapBucket(b.id - a.id);
      var r := CountPeriods(d, cohort, week, load, a, b);
      var all := Count(d, Key(cohort, gap, All), a, b);
      CountKeeps(d, Key(cohort, gap, All), a, b, week, load);
      CountKeeps(all, Key(cohort, gap, Week(week)), a, b, week, load);
      CountKeeps(Count(all, Key(cohort, gap, Week(week)), a, b), Key(cohort, gap, ByLoad(load)), a, b, week, load);
      forall c, g, kind
        ensures Lookup(r, Key(c, g, PeriodOf(kind, week, load))) == Lookup(r, Key(c, g, All))
      {
        PeriodsLookup(d, cohort, week, load, a, b, Key(c, g, PeriodOf(kind, week, load)));
        PeriodsLookup(d, cohort, week, load, a, b, Key(c, g, All));
      }
    }
  }

  lemma {:induction false} ProcessedKeepsUniform(d: Local, s: seq<Tx>, cohort: Cohort, week: string, load: Load)
    requires Uniform(d, week, load)
    ensures Uniform(Processed(d, s, cohort, week, load), week, load)
    decreases s
  {
    if |s| >= 2 {
      PeriodsKeepUniform(d, cohort, week, load, s[0], s[1]);
      ProcessedKeepsUniform(CountPeriods(d, cohort, week, load, s[0], s[1]), s[1..], cohort, week, load);
    }
  }

  lemma {:induction false} MintsKeepUniform(d: Local, groups: Dict<string, seq<Tx>>, week: string, load: Load)
    requires Uniform(d, week, load)
    ensures Uniform(MintCohorts(d, groups, week, load), week, load)
  {
    if groups != [] {
      var last := |groups| - 1;
      var s, before := groups[last].1, MintCohorts(d, groups[..last], week, load);
      MintsKeepUniform(d, groups[..last], week, load);
      ProcessedKeepsUniform(before, s, MintAll, week, load);
      var all := Processed(before, s, MintAll, week, load);
      ProcessedKeepsUniform(all, s, MintCrossSigner, week, load);
      ProcessedKeepsUniform(Processed(all, s, MintCrossSigner, week, load), s, MintSameSigner, week, load);
    }
  }

  lemma {:induction false} ComputesKeepUniform(d: Local, groups: Dict<(string, string), seq<Tx>>, week: string,
                                               load: Load)
    requires Uniform(d, week, load)
    ensures Uniform(ComputeCohorts(d, groups, week, load), week, load)
  {
    if groups != [] {
      var last := |groups| - 1;
      ComputesKeepUniform(d, groups[..last], week, load);
      ProcessedKeepsUniform(ComputeCohorts(d, groups[..last], week, load), groups[last].1, ComputeCrossSigner, week,
                            load);
    }
  }

  /** The rate a slot adds to the rows of one cohort, gap and kind of period. */
  function SlotRatesOf(cohort: Cohort, gap: Gap, kind: Kind, field: nat): (Key, Totals) -> multiset<real>
    requires field < 5
  {
    (k: Key, t: Totals) =>
      if Selected(k, cohort, gap, kind) then multiset(SlotRate(t.wins[field], t.cmp[field])) else multiset{}
  }

  /** The rates listed in the rows of one leader, client, cohort, gap and kind of period. */
  function RatesOf(meta: Meta, cohort: Cohort, gap: Gap, kind: Kind, field: nat)
    : ((Meta, Key), Totals) -> multiset<real>
    requires field < 5
  {
    (k: (Meta, Key), t: Totals) =>
      if k.0 == meta && Selected(k.1, cohort, gap, kind) then multiset(t.rates[field]) else multiset{}
  }

  lemma {:induction false} SlotRatesAlike(txs: seq<Tx>, cohort: Cohort, gap: Gap, kind: Kind, field: nat)
    requires txs != [] && field < 5
    ensures Bag(SlotTotals(txs), SlotRatesOf(cohort, gap, kind, field))
         == Bag(SlotTotals(txs), SlotRatesOf(cohort, gap, AllTime, field))
  {
    var week, load, d := txs[0].week, LoadBucket(|txs|), SlotTotals(txs);
    MintsKeepUniform([], ByMint(txs), week, load);
    ComputesKeepUniform(MintCohorts([], ByMint(txs), week, load), ByCompute(txs), week, load);
    OneRowSelected(d, week, load, cohort, gap, kind, field);
    OneRowSelected(d, week, load, cohort, gap, AllTime, field);
  }

  lemma {:induction false} OneRowSelected(d: Local, week: string, load: Load, cohort: Cohort, gap: Gap, kind: Kind,
                                          field: nat)
    requires Uniform(d, week, load) && field < 5
    ensures var row := Lookup(d, Key(cohort, gap, All));
            Bag(d, SlotRatesOf(cohort, gap, kind, field))
            == if row.None? then multiset{} else multiset(SlotRate(row.value.wins[field], row.value.cmp[field]))
  {
    var f, key := SlotRatesOf(cohort, gap, kind, field), Key(cohort, gap, PeriodOf(kind, week, load));
    forall i | 0 <= i < |d| && d[i].0 != key
      ensures f(d[i].0, d[i].1) == multiset{}
    {
      var k := d[i].0;
      assert k.period == PeriodOf(KindOf(k.period), week, load);
      assert Selected(k, cohort, gap, kind) ==> Key(k.cohort, k.gap, k.period) == key;
      assert k == Key(k.cohort, k.gap, k.period);
    }
    BagOfOne(d, key, f);
    assert Lookup(d, key) == Lookup(d, Key(cohort, gap, All));
    assert Selected(key, cohort, gap, kind);
  }

  lemma {:induction false} RateAdds(key: (Meta, Key), t: Totals, v: Totals, meta: Meta, cohort: Cohort, gap: Gap,
                                    kind: Kind, field: nat)
    requires field < 5
    ensures var f := RatesOf(meta, cohort, gap, kind, field);
            && f(key, NOTHING) == multiset{}
            && f(key, Merged(t, v))
               == f(key, t) + if key.0 == meta then SlotRatesOf(cohort, gap, kind, field)(key.1, v) else multiset{}
  {
    MergedRate(t, v, field);
  }

  lemma {:induction false} MergedRate(t: Totals, v: Totals, field: nat)
    requires field < 5
    ensures multiset(NOTHING.rates[field]) == multiset{}
    ensures multiset(Merged(t, v).rates[field])
         == multiset(t.rates[field]) + multiset(SlotRate(v.wins[field], v.cmp[field]))
  {
    assert Merged(t, v).rates[field] == t.rates[field] + SlotRate(v.wins[field], v.cmp[field]);
  }

  lemma {:induction false} Cancelled<X>(after: multiset<X>, before: multiset<X>, share: multiset<X>, more: multiset<X>)
    requires after + share == before + (share + more)
    ensures after == before + more
  {
    assert before + (share + more) == (before + more) + share;
    forall x: X
      ensures after[x] == (before + more)[x]
    {
      assert (after + share)[x] == ((before + more) + share)[x];
    }
  }

  lemma {:induction false} MergeAddsRate(g: Global, key: (Meta, Key), v: Totals, meta: Meta, cohort: Cohort, gap: Gap,
                                         kind: Kind, field: nat)
    requires field < 5
    ensures Bag(Put(g, key, Merged(LookupOr(g, key, NOTHING), v)), RatesOf(meta, cohort, gap, kind, field))
         == Bag(g, RatesOf(meta, cohort, gap, kind, field))
            + if key.0 == meta then SlotRatesOf(cohort, gap, kind, field)(key.1, v) else multiset{}
  {
    var t := LookupOr(g, key, NOTHING);
    var w := Merged(t, v);
    RateAdds(key, t, v, meta, cohort, gap, kind, field);
    BagPut(g, key, w, RatesOf(meta, cohort, gap, kind, field));
    var before, after := Bag(g, RatesOf(meta, cohort, gap, kind, field)),
                         Bag(Put(g, key, w), RatesOf(meta, cohort, gap, kind, field));
    var share := BagShare(g, key, RatesOf(meta, cohort, gap, kind, field));
    assert share == RatesOf(meta, cohort, gap, kind, field)(key, t);
    Cancelled(after, before, share,
              if key.0 == meta then SlotRatesOf(cohort, gap, kind, field)(key.1, v) else multiset{});
  }

  lemma {:induction false} MergedRates(g: Global, into: Meta, local: Local, meta: Meta, cohort: Cohort, gap: Gap,
                                       kind: Kind, field: nat)
    requires field < 5
    ensures Bag(MergedAll(g, into, local), RatesOf(meta, cohort, gap, kind, field))
         == Bag(g, RatesOf(meta, cohort, gap, kind, field))
            + if into == meta then Bag(local, SlotRatesOf(cohort, gap, kind, field)) else multiset{}
  {
    if local != [] {
      var last := |local| - 1;
      MergedRates(g, into, local[..last], meta, cohort, gap, kind, field);
      BagLast(local, SlotRatesOf(cohort, gap, kind, field));
      MergeAddsRate(MergedAll(g, into, local[..last]), (into, local[last].0), local[last].1, meta, cohort, gap, kind,
                    field);
    }
  }

  /** The rates listed for all time are, as a multiset, those of all weeks together and those of
      all loads together. */
  lemma {:induction false} RatesConserved(slots: seq<Slot>, meta: Meta, cohort: Cohort, gap: Gap, kind: Kind,
                                          field: nat)
    requires Filled(slots) && field < 5
    ensures Bag(Aggregated(slots), RatesOf(meta, cohort, gap, kind, field))
         == Bag(Aggregated(slots), RatesOf(meta, cohort, gap, AllTime, field))
  {
    if slots != [] {
      var slot, before := slots[|slots| - 1], slots[..|slots| - 1];
      RatesConserved(before, meta, cohort, gap, kind, field);
      if slot.meta.Some? {
        SortFilled(slot.txs);
        var txs := InOrder(slot.txs);
        SlotRatesAlike(txs, cohort, gap, kind, field);
        MergedRates(Aggregated(before), slot.meta.value, SlotTotals(txs), meta, cohort, gap, kind, field);
        MergedRates(Aggregated(before), slot.meta.value, SlotTotals(txs), meta, cohort, gap, AllTime, field);
      }
    }
  }
}
