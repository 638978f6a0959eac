/** Every row of the two lane tables (analysis/analyze_lane_order.py), as a sum over the races it
    speaks of. */
module LaneTotals {
  import opened Dict
  import opened Prelude
  import opened LaneOrder

  // ----- the lane table -----

  datatype Column = Presences | Wins | Expectation | Copies | Ranks

  function Cell(c: Column, s: LaneStat): real {
    match c
    case Presences => s.presence as real
    case Wins => s.firsts as real
    case Expectation => s.neutral
    case Copies => s.copies as real
    case Ranks => s.rankSum
  }

  /** Which rows: one leader and class, one lane, one period. */
  datatype LaneRows = LaneRows(leader: string, leaderClass: string, lane: int, period: Period)

  predicate Selects(sel: LaneRows, k: StatKey) {
    k.leader == sel.leader && k.leaderClass == sel.leaderClass && k.lane == sel.lane && k.period == sel.period
  }

  function InColumn(c: Column, sel: LaneRows): (StatKey, LaneStat) -> real {
    (k: StatKey, s: LaneStat) => if Selects(sel, k) then Cell(c, s) else 0.0
  }

  /** The race counts for these rows: their leader's, and in their period. */
  predicate Covers(sel: LaneRows, key: RaceKey, week: string) {
    && key.leader == sel.leader && key.leaderClass == sel.leaderClass
    && (sel.period == All || sel.period == Week(week))
  }

  /** What a lane gets out of a race of at least two lanes: it took part; it won if no lane was
      earlier; with no difference between lanes each would win its share; its rows; and its rank
      among the others, 0 for the first and 1 for the last. */
  function Due(c: Column, lanes: Lanes, e: Entry): real
    requires |lanes| >= 2
  {
    match c
    case Presences => 1.0
    case Wins => if Below(lanes, e.id) == 0 then 1.0 else 0.0
    case Expectation => 1.0 / |lanes| as real
    case Copies => e.copies as real
    case Ranks => Below(lanes, e.id) as real / (|lanes| - 1) as real
  }

  /** The same over all races. */
  function Sum(c: Column, sel: LaneRows, races: Races): real {
    if races == [] then 0.0
    else
      var (key, race) := races[|races| - 1];
      Sum(c, sel, races[..|races| - 1])
      + if |race.lanes| >= 2 && Covers(sel, key, race.week) && Lookup(race.lanes, sel.lane).Some?
        then Due(c, race.lanes, Lookup(race.lanes, sel.lane).value) else 0.0
  }

  lemma {:induction false} PlaceIsBelow(lanes: Lanes, lane: int)
    requires WellRanked(lanes) && Lookup(lanes, lane).Some?
    ensures Ordered(lanes) != []
    ensures Place(Ordered(lanes), lane) == Below(lanes, Lookup(lanes, lane).value.id)
    ensures lane == Ordered(lanes)[0].0 <==> Below(lanes, Lookup(lanes, lane).value.id) == 0
  {
    var byId := (e: (int, Entry)) => e.1.id;
    SortLookup(lanes, byId, lane);
    SortRanked(lanes, byId);
    SortAscending(lanes);
    BelowPlace(Ordered(lanes), lane);
    SortBelow(lanes, byId, Lookup(lanes, lane).value.id);
  }

  lemma {:induction false} DeltaIsDue(lanes: Lanes, lane: int, c: Column)
    requires WellRanked(lanes) && |lanes| >= 2 && Lookup(lanes, lane).Some?
    ensures |Ordered(lanes)| == |lanes|
    ensures var e := Lookup(lanes, lane).value; Cell(c, Delta(Ordered(lanes), lane, e.copies)) == Due(c, lanes, e)
  {
    SortSize(lanes, (e: (int, Entry)) => e.1.id);
    PlaceIsBelow(lanes, lane);
  }

  lemma {:induction false} PlusAdds(s: LaneStat, d: LaneStat, c: Column)
    ensures Cell(c, s.Plus(d)) == Cell(c, s) + Cell(c, d) && Cell(c, NO_STAT) == 0.0
  {
  }

  lemma {:induction false} CountAdds(stats: Dict<StatKey, LaneStat>, key: StatKey, d: LaneStat, c: Column,
                                     sel: LaneRows)
    ensures Total(Count(stats, key, d), InColumn(c, sel))
         == Total(stats, InColumn(c, sel)) + if Selects(sel, key) then Cell(c, d) else 0.0
  {
    var s := LookupOr(stats, key, NO_STAT);
    PlusAdds(s, d, c);
    ShareOr(stats, key, NO_STAT, InColumn(c, sel));
    TotalPut(stats, key, s.Plus(d), InColumn(c, sel));
  }

  /** A lane is counted under all time and under its week, so once in the period asked for. */
  lemma {:induction false} CountLaneAdds(stats: Dict<StatKey, LaneStat>, key: RaceKey, week: string, ordered: Lanes,
                                         lane: (int, Entry), c: Column, sel: LaneRows)
    requires |ordered| >= 2
    ensures Total(CountLane(stats, key, week, ordered, lane), InColumn(c, sel))
         == Total(stats, InColumn(c, sel))
            + if Covers(sel, key, week) && lane.0 == sel.lane
              then Cell(c, Delta(ordered, lane.0, lane.1.copies)) else 0.0
  {
    var d := Delta(ordered, lane.0, lane.1.copies);
    var all := StatKey(key.leader, key.leaderClass, lane.0, lane.1.name, All);
    var weekly := StatKey(key.leader, key.leaderClass, lane.0, lane.1.name, Week(week));
    CountAdds(stats, all, d, c, sel);
    CountAdds(Count(stats, all, d), weekly, d, c, sel);
  }

  function LaneGain(ordered: Lanes, lanes: Lanes, covered: bool, c: Column, lane: int): real
    requires |ordered| >= 2
  {
    var e := Lookup(lanes, lane);
    if covered && e.Some? then Cell(c, Delta(ordered, lane, e.value.copies)) else 0.0
  }

  lemma {:induction false} LaneGainStep(ordered: Lanes, lanes: Lanes, covered: bool, c: Column, lane: int)
    requires |ordered| >= 2 && Keyed(lanes) && lanes != []
    ensures var last := lanes[|lanes| - 1];
            LaneGain(ordered, lanes, covered, c, lane)
            == LaneGain(ordered, lanes[..|lanes| - 1], covered, c, lane)
               + if covered && last.0 == lane then Cell(c, Delta(ordered, last.0, last.1.copies)) else 0.0
  {
    LookupLast(lanes, lane);
    if lanes[|lanes| - 1].0 == lane {
      Absent(lanes[..|lanes| - 1], lane);
    }
  }

  lemma {:induction false} LanesAdd(stats: Dict<StatKey, LaneStat>, key: RaceKey, week: string, ordered: Lanes,
                                    lanes: Lanes, c: Column, sel: LaneRows)
    requires |ordered| >= 2 && Keyed(lanes)
    ensures Total(CountLanes(stats, key, week, ordered, lanes), InColumn(c, sel))
         == Total(stats, InColumn(c, sel)) + LaneGain(ordered, lanes, Covers(sel, key, week), c, sel.lane)
  {
    if lanes != [] {
      var last := |lanes| - 1;
      LanesAdd(stats, key, week, ordered, lanes[..last], c, sel);
      CountLaneAdds(CountLanes(stats, key, week, ordered, lanes[..last]), key, week, ordered, lanes[last], c, sel);
      LaneGainStep(ordered, lanes, Covers(sel, key, week), c, sel.lane);
    }
  }

  /** Every row of the lane table is the sum of what the races give it. */
  lemma {:induction false} LaneRowsAreSums(races: Races, c: Column, sel: LaneRows)
    requires AllRanked(races)
    ensures Total(Analysed(races).stats, InColumn(c, sel)) == Sum(c, sel, races)
  {
    if races != [] {
      var before := races[..|races| - 1];
      var (key, race) := races[|races| - 1];
      assert AllRanked(before);
      LaneRowsAreSums(before, c, sel);
      if |race.lanes| >= 2 {
        SortSize(race.lanes, (e: (int, Entry)) => e.1.id);
        LanesAdd(Analysed(before).stats, key, race.week, Ordered(race.lanes), race.lanes, c, sel);
        if Lookup(race.lanes, sel.lane).Some? {
          DeltaIsDue(race.lanes, sel.lane, c);
        }
      }
    }
  }

  /** And the table says how many races there were. */
  lemma {:induction false} AnalyzableCounts(races: Races)
    ensures Analysed(races).analyzable == |AtLeastTwo(races)|
  {
    if races != [] {
      AnalyzableCounts(races[..|races| - 1]);
    }
  }

  function AtLeastTwo(races: Races): Races {
    if races == [] then []
    else
      var race := races[|races| - 1];
      AtLeastTwo(races[..|races| - 1]) + if |race.1.lanes| > 1 then [race] else []
  }

  // ----- the pair table -----

  datatype PairColumn = Comparisons | WinsOfA | Matched | MatchedWinsOfA

  function PairCell(c: PairColumn, s: PairStat): real {
    match c
    case Comparisons => s.comparisons as real
    case WinsOfA => s.winsA as real
    case Matched => s.matched as real
    case MatchedWinsOfA => s.matchedWinsA as real
  }

  datatype PairRows = PairRows(leader: string, leaderClass: string, a: int, b: int)

  predicate PairSelects(sel: PairRows, k: PairKey) {
    k.leader == sel.leader && k.leaderClass == sel.leaderClass && k.a == sel.a && k.b == sel.b
  }

  function OfPair(c: PairColumn, sel: PairRows): (PairKey, PairStat) -> real {
    (k: PairKey, s: PairStat) => if PairSelects(sel, k) then PairCell(c, s) else 0.0
  }

  /** Two positive fees, neither more than 5% above the other. */
  predicate CloseFees(x: int, y: int) {
    x > 0 && y > 0 && 20 * x <= 21 * y && 20 * y <= 21 * x
  }

  /** What a race with both lanes gives their pair. */
  function PairDue(c: PairColumn, a: Entry, b: Entry): real {
    if (c == WinsOfA || c == MatchedWinsOfA) && a.id >= b.id then 0.0
    else if (c == Matched || c == MatchedWinsOfA) && !CloseFees(a.fee, b.fee) then 0.0
    else 1.0
  }

  lemma {:induction false} ComparedAdds(s: PairStat, a: Entry, b: Entry, c: PairColumn)
    ensures PairCell(c, Compared(s, a, b)) == PairCell(c, s) + PairDue(c, a, b) && PairCell(c, NO_PAIR) == 0.0
  {
  }

  /** The pair is of this leader and these lanes. */
  predicate OfRace(sel: PairRows, key: RaceKey) {
    key.leader == sel.leader && key.leaderClass == sel.leaderClass
  }

  lemma {:induction false} CountPairAdds(pairs: Dict<PairKey, PairStat>, key: RaceKey, a: (int, Entry),
                                         b: (int, Entry), c: PairColumn, sel: PairRows)
    ensures Total(CountPair(pairs, key, a, b), OfPair(c, sel))
         == Total(pairs, OfPair(c, sel))
            + if OfRace(sel, key) && a.0 == sel.a && b.0 == sel.b then PairDue(c, a.1, b.1) else 0.0
  {
    var k := PairKey(key.leader, key.leaderClass, a.0, a.1.name, b.0, b.1.name);
    var s := LookupOr(pairs, k, NO_PAIR);
    ComparedAdds(s, a.1, b.1, c);
    ShareOr(pairs, k, NO_PAIR, OfPair(c, sel));
    TotalPut(pairs, k, Compared(s, a.1, b.1), OfPair(c, sel));
  }

  lemma {:induction false} AgainstAdds(pairs: Dict<PairKey, PairStat>, key: RaceKey, a: (int, Entry), s: Lanes,
                                       c: PairColumn, sel: PairRows)
    requires Keyed(s)
    ensures Total(PairsAgainst(pairs, key, a, s), OfPair(c, sel))
         == Total(pairs, OfPair(c, sel))
            + if OfRace(sel, key) && a.0 == sel.a && Lookup(s, sel.b).Some?
              then PairDue(c, a.1, Lookup(s, sel.b).value) else 0.0
    decreases s
  {
    if s != [] {
      CountPairAdds(pairs, key, a, s[0], c, sel);
      AgainstAdds(CountPair(pairs, key, a, s[0]), key, a, s[1..], c, sel);
      Absent(s[1..], s[0].0);
    }
  }

  ghost predicate ByLaneNumber(s: Lanes) {
    forall i, j :: 0 <= i < j < |s| ==> s[i].0 < s[j].0
  }

  /** Of two lanes in lane order, the lower one comes first; a pair is counted once, under it. */
  lemma {:induction false} PairsAdd(pairs: Dict<PairKey, PairStat>, key: RaceKey, s: Lanes, c: PairColumn,
                                    sel: PairRows)
    requires ByLaneNumber(s)
    ensures Total(PairsOf(pairs, key, s), OfPair(c, sel))
         == Total(pairs, OfPair(c, sel)) + RacePair(s, OfRace(sel, key), c, sel)
    decreases s
  {
    if s != [] {
      AgainstAdds(pairs, key, s[0], s[1..], c, sel);
      PairsAdd(PairsAgainst(pairs, key, s[0], s[1..]), key, s[1..], c, sel);
      RacePairStep(s, OfRace(sel, key), c, sel);
    }
  }

  /** What one race gives the pair. */
  function RacePair(lanes: Lanes, counts: bool, c: PairColumn, sel: PairRows): real {
    var a, b := Lookup(lanes, sel.a), Lookup(lanes, sel.b);
    if counts && sel.a < sel.b && a.Some? && b.Some? then PairDue(c, a.value, b.value) else 0.0
  }

  lemma {:induction false} RacePairStep(s: Lanes, counts: bool, c: PairColumn, sel: PairRows)
    requires ByLaneNumber(s) && s != []
    ensures RacePair(s, counts, c, sel)
         == (if counts && s[0].0 == sel.a && Lookup(s[1..], sel.b).Some?
             then PairDue(c, s[0].1, Lookup(s[1..], sel.b).value) else 0.0)
            + RacePair(s[1..], counts, c, sel)
  {
    Absent(s[1..], s[0].0);
    if Lookup(s[1..], sel.a).Some? {
      var i := FoundAt(s[1..], sel.a);
      assert s[1..][i] == s[i + 1];
    }
    if Lookup(s[1..], sel.b).Some? {
      var i := FoundAt(s[1..], sel.b);
      assert s[1..][i] == s[i + 1];
    }
  }

  function PairSum(c: PairColumn, sel: PairRows, races: Races): real {
    if races == [] then 0.0
    else
      var (key, race) := races[|races| - 1];
      PairSum(c, sel, races[..|races| - 1]) + RacePair(race.lanes, OfRace(sel, key), c, sel)
  }

  lemma {:induction false} LanesInOrder(lanes: Lanes)
    requires WellRanked(lanes)
    ensures ByLaneNumber(ByLane(lanes))
  {
    var byLane := (e: (int, Entry)) => e.0;
    SortSorted(lanes, byLane);
    SortRanked(lanes, byLane);
    var s := ByLane(lanes);
    forall i, j | 0 <= i < j < |s| ensures s[i].0 < s[j].0 {
      assert byLane(s[i]) <= byLane(s[j]);
    }
  }

  /** Two lanes are needed for a pair. */
  lemma {:induction false} FewLanes(lanes: Lanes, counts: bool, c: PairColumn, sel: PairRows)
    requires |lanes| < 2
    ensures RacePair(lanes, counts, c, sel) == 0.0
  {
    if lanes != [] {
      Absent(lanes[1..], sel.a);
      Absent(lanes[1..], sel.b);
    }
  }

  /** Every row of the pair table is the sum over the leader's races in which both lanes took part. */
  lemma {:induction false} PairRowsAreSums(races: Races, c: PairColumn, sel: PairRows)
    requires AllRanked(races)
    ensures Total(Analysed(races).pairs, OfPair(c, sel)) == PairSum(c, sel, races)
  {
    if races != [] {
      var before := races[..|races| - 1];
      var (key, race) := races[|races| - 1];
      assert AllRanked(before);
      PairRowsAreSums(before, c, sel);
      if |race.lanes| >= 2 {
        LanesInOrder(race.lanes);
        PairsAdd(Analysed(before).pairs, key, ByLane(race.lanes), c, sel);
        SortLookup(race.lanes, (e: (int, Entry)) => e.0, sel.a);
        SortLookup(race.lanes, (e: (int, Entry)) => e.0, sel.b);
      } else {
        FewLanes(race.lanes, OfRace(sel, key), c, sel);
      }
    }
  }

  // ----- the week of a race -----

  ghost predicate FirstOfRace(rows: seq<Row>, key: RaceKey, i: nat) {
    i < |rows| && rows[i].race == key && forall j :: 0 <= j < i ==> rows[j].race != key
  }

  /** A race is filed under the week of its first row. */
  lemma {:induction false} WeekOfFirstRow(rows: seq<Row>, key: RaceKey, i: nat)
    requires FirstOfRace(rows, key, i)
    ensures Lookup(Collect(rows), key).Some? && Lookup(Collect(rows), key).value.week == rows[i].week
  {
    var before, r := rows[..|rows| - 1], rows[|rows| - 1];
    var races := Collect(before);
    var race := LookupOr(races, r.race, Race(r.week, []));
    var entry := Absorb(Lookup(race.lanes, r.lane), r);
    LookupPut(races, r.race, race.(lanes := Put(race.lanes, r.lane, entry)), key);
    if i < |rows| - 1 {
      WeekOfFirstRow(before, key, i);
    } else {
      NoRace(before, key);
    }
  }

  lemma {:induction false} NoRace(rows: seq<Row>, key: RaceKey)
    requires forall j :: 0 <= j < |rows| ==> rows[j].race != key
    ensures Lookup(Collect(rows), key) == None
  {
    if rows != [] {
      var before, r := rows[..|rows| - 1], rows[|rows| - 1];
      var races := Collect(before);
      var race := LookupOr(races, r.race, Race(r.week, []));
      NoRace(before, key);
      LookupPut(races, r.race, race.(lanes := Put(race.lanes, r.lane, Absorb(Lookup(race.lanes, r.lane), r))), key);
    }
  }
}
