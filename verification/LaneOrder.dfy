/** Head-to-head lane order inside a race (analysis/analyze_lane_order.py): the earliest row
    of every lane is kept, races of two or more lanes are ranked and tallied pairwise. */
module LaneOrder {
  import opened Dict
  import opened Prelude

  datatype RaceKey = RaceKey(slot: int, mint: string, leader: string, leaderClass: string)
  datatype Row = Row(race: RaceKey, week: string, lane: int, laneName: string, id: int, fee: int)

  /** The earliest row of a lane and how many rows the lane had. */
  datatype Entry = Entry(id: int, name: string, copies: nat, fee: int)
  type Lanes = Dict<int, Entry>
  datatype Race = Race(week: string, lanes: Lanes)
  type Races = Dict<RaceKey, Race>

  datatype Period = All | Week(week: string)
  datatype StatKey = StatKey(leader: string, leaderClass: string, lane: int, name: string, period: Period)
  datatype LaneStat = LaneStat(presence: nat, firsts: nat, neutral: real, copies: nat, rankSum: real) {
    function Plus(d: LaneStat): LaneStat {
      LaneStat(presence + d.presence, firsts + d.firsts, neutral + d.neutral, copies + d.copies,
               rankSum + d.rankSum)
    }
  }
  const NO_STAT := LaneStat(0, 0, 0.0, 0, 0.0)

  datatype PairKey = PairKey(leader: string, leaderClass: string, a: int, aName: string, b: int, bName: string)
  datatype PairStat = PairStat(comparisons: nat, winsA: nat, matched: nat, matchedWinsA: nat)
  const NO_PAIR := PairStat(0, 0, 0, 0)

  datatype Tally = Tally(stats: Dict<StatKey, LaneStat>, pairs: Dict<PairKey, PairStat>, analyzable: nat)

  // ----- collecting the races -----

  function Absorb(cur: Option<Entry>, r: Row): Entry {
    match cur
    case None => Entry(r.id, r.laneName, 1, r.fee)
    case Some(e) =>
      if r.id < e.id then Entry(r.id, r.laneName, e.copies + 1, r.fee) else e.(copies := e.copies + 1)
  }

  function AddRow(races: Races, r: Row): Races {
    var race := LookupOr(races, r.race, Race(r.week, []));
    var lanes := Put(race.lanes, r.lane, Absorb(Lookup(race.lanes, r.lane), r));
    Put(races, r.race, race.(lanes := lanes))
  }

  function Collect(rows: seq<Row>): Races {
    if rows == [] then [] else AddRow(Collect(rows[..|rows| - 1]), rows[|rows| - 1])
  }

  method CollectRaces(rows: seq<Row>) returns (races: Races)
    ensures races == Collect(rows)
  {
    races := [];
    for i := 0 to |rows|
      invariant races == Collect(rows[..i])
    {
      var r := rows[i];
      assert rows[..i + 1][..i] == rows[..i];
      var race := LookupOr(races, r.race, Race(r.week, []));
      var entry := Absorb(Lookup(race.lanes, r.lane), r);
      races := Put(races, r.race, race.(lanes := Put(race.lanes, r.lane, entry)));
    }
    assert rows[..|rows|] == rows;
  }

  function LaneEntry(races: Races, key: RaceKey, lane: int): Option<Entry> {
    match Lookup(races, key)
    case None => None
    case Some(race) => Lookup(race.lanes, lane)
  }

  lemma {:induction false} AddRowEntry(races: Races, r: Row, key: RaceKey, lane: int)
    ensures LaneEntry(AddRow(races, r), key, lane)
         == if r.race == key && r.lane == lane then Some(Absorb(LaneEntry(races, key, lane), r))
            else LaneEntry(races, key, lane)
  {
    var race := LookupOr(races, r.race, Race(r.week, []));
    var lanes := Put(race.lanes, r.lane, Absorb(Lookup(race.lanes, r.lane), r));
    LookupPut(races, r.race, race.(lanes := lanes), key);
    LookupPut(race.lanes, r.lane, Absorb(Lookup(race.lanes, r.lane), r), lane);
  }

  function Matching(rows: seq<Row>, key: RaceKey, lane: int): seq<Row> {
    if rows == [] then []
    else
      var r := rows[|rows| - 1];
      Matching(rows[..|rows| - 1], key, lane) + if r.race == key && r.lane == lane then [r] else []
  }

  predicate Earliest(e: Entry, m: seq<Row>) {
    && e.copies == |m|
    && (exists r :: r in m && r.id == e.id && r.laneName == e.name && r.fee == e.fee)
    && (forall r :: r in m ==> e.id <= r.id)
  }

  /** A lane's entry is its earliest row, with the number of its rows. */
  lemma {:induction false} EntryIsEarliest(rows: seq<Row>, key: RaceKey, lane: int)
    ensures var e, m := LaneEntry(Collect(rows), key, lane), Matching(rows, key, lane);
            if m == [] then e == None else e.Some? && Earliest(e.value, m)
  {
    if rows != [] {
      var before, r := rows[..|rows| - 1], rows[|rows| - 1];
      EntryIsEarliest(before, key, lane);
      AddRowEntry(Collect(before), r, key, lane);
      if r.race == key && r.lane == lane {
        AbsorbEarliest(LaneEntry(Collect(before), key, lane), r, Matching(before, key, lane));
      } else {
        assert Matching(rows, key, lane) == Matching(before, key, lane);
      }
    }
  }

  lemma {:induction false} AbsorbEarliest(cur: Option<Entry>, r: Row, m: seq<Row>)
    requires if m == [] then cur == None else cur.Some? && Earliest(cur.value, m)
    ensures Earliest(Absorb(cur, r), m + [r])
  {
    assert r in m + [r];
    if cur.Some? && r.id >= cur.value.id {
      var q :| q in m && q.id == cur.value.id && q.laneName == cur.value.name && q.fee == cur.value.fee;
      assert q in m + [r];
    }
  }

  ghost predicate DistinctIds(rows: seq<Row>) {
    forall r, q :: r in rows && q in rows && r.id == q.id ==> r == q
  }

  ghost predicate WellRanked(lanes: Lanes) {
    Keyed(lanes) && forall i, j :: 0 <= i < j < |lanes| ==> lanes[i].1.id != lanes[j].1.id
  }

  lemma {:induction false} MatchingRows(rows: seq<Row>, key: RaceKey, lane: int)
    ensures forall r :: r in Matching(rows, key, lane) ==> r in rows && r.race == key && r.lane == lane
  {
    if rows != [] {
      MatchingRows(rows[..|rows| - 1], key, lane);
    }
  }

  ghost predicate AllKeyed(races: Races) {
    Keyed(races) && forall i :: 0 <= i < |races| ==> Keyed(races[i].1.lanes)
  }

  lemma {:induction false} PutAllKeyed(races: Races, key: RaceKey, race: Race)
    requires AllKeyed(races) && Keyed(race.lanes)
    ensures AllKeyed(Put(races, key, race))
  {
    PutKeyed(races, key, race);
    if races != [] && races[0].0 != key {
      PutAllKeyed(races[1..], key, race);
      var rest := Put(races[1..], key, race);
      assert forall i :: 0 < i < |Put(races, key, race)| ==> Put(races, key, race)[i] == rest[i - 1];
    }
  }

  lemma {:induction false} FoundKeyed(races: Races, key: RaceKey)
    requires AllKeyed(races) && Lookup(races, key).Some?
    ensures Keyed(Lookup(races, key).value.lanes)
  {
    if races[0].0 != key {
      FoundKeyed(races[1..], key);
    }
  }

  lemma {:induction false} CollectKeyed(rows: seq<Row>)
    ensures AllKeyed(Collect(rows))
  {
    if rows != [] {
      var races, r := Collect(rows[..|rows| - 1]), rows[|rows| - 1];
      CollectKeyed(rows[..|rows| - 1]);
      if Lookup(races, r.race).Some? {
        FoundKeyed(races, r.race);
      }
      var race := LookupOr(races, r.race, Race(r.week, []));
      PutKeyed(race.lanes, r.lane, Absorb(Lookup(race.lanes, r.lane), r));
      PutAllKeyed(races, r.race, race.(lanes := Put(race.lanes, r.lane, Absorb(Lookup(race.lanes, r.lane), r))));
    }
  }

  lemma {:induction false} EntryRow(rows: seq<Row>, k: nat, i: nat) returns (r: Row)
    requires k < |Collect(rows)| && i < |Collect(rows)[k].1.lanes|
    ensures r in rows && r.lane == Collect(rows)[k].1.lanes[i].0 && r.id == Collect(rows)[k].1.lanes[i].1.id
  {
    var races := Collect(rows);
    var (key, race) := races[k];
    var lane := race.lanes[i].0;
    CollectKeyed(rows);
    LookupAt(races, k);
    LookupAt(race.lanes, i);
    EntryIsEarliest(rows, key, lane);
    MatchingRows(rows, key, lane);
    r :| r in Matching(rows, key, lane) && r.id == race.lanes[i].1.id;
  }

  /** Distinct row ids give every race lanes with distinct earliest ids. */
  lemma {:induction false} CollectedAreRanked(rows: seq<Row>, k: nat)
    requires DistinctIds(rows) && k < |Collect(rows)|
    ensures WellRanked(Collect(rows)[k].1.lanes)
  {
    CollectKeyed(rows);
    var lanes := Collect(rows)[k].1.lanes;
    forall i, j | 0 <= i < j < |lanes| ensures lanes[i].1.id != lanes[j].1.id {
      var r := EntryRow(rows, k, i);
      var q := EntryRow(rows, k, j);
    }
  }

  // ----- one race: its order and its pairwise comparisons -----

  function Ordered(lanes: Lanes): Lanes {
    SortBy(lanes, (e: (int, Entry)) => e.1.id)
  }

  function ByLane(lanes: Lanes): Lanes {
    SortBy(lanes, (e: (int, Entry)) => e.0)
  }

  /** The rank the code looks up: the place of the lane in the order. */
  function Place(s: Lanes, lane: int): nat {
    if s == [] || s[0].0 == lane then 0 else 1 + Place(s[1..], lane)
  }

  datatype Outcome = Outcome(a: int, b: int, aWins: bool)

  function Against(x: (int, Entry), s: Lanes): seq<Outcome> {
    if s == [] then [] else [Outcome(x.0, s[0].0, x.1.id < s[0].1.id)] + Against(x, s[1..])
  }

  /** Every pair once, as the two nested loops visit them. */
  function Outcomes(s: Lanes): seq<Outcome> {
    if s == [] then [] else Against(s[0], s[1..]) + Outcomes(s[1..])
  }

  predicate Lost(o: Outcome, lane: int) {
    if o.aWins then o.b == lane else o.a == lane
  }

  function Losses(os: seq<Outcome>, lane: int): nat {
    if os == [] then 0 else (if Lost(os[0], lane) then 1 else 0) + Losses(os[1..], lane)
  }

  function Below(s: Lanes, id: int): nat {
    if s == [] then 0 else (if s[0].1.id < id then 1 else 0) + Below(s[1..], id)
  }

  lemma {:induction false} LossesAppend(a: seq<Outcome>, b: seq<Outcome>, lane: int)
    ensures Losses(a + b, lane) == Losses(a, lane) + Losses(b, lane)
  {
    if a == [] {
      assert a + b == b;
    } else {
      assert (a + b)[1..] == a[1..] + b;
      LossesAppend(a[1..], b, lane);
    }
  }

  lemma {:induction false} AgainstOther(x: (int, Entry), s: Lanes, lane: int)
    requires Keyed(s) && lane != x.0
    ensures Losses(Against(x, s), lane)
         == match Lookup(s, lane) case None => 0 case Some(e) => if x.1.id < e.id then 1 else 0
  {
    if s != [] {
      AgainstOther(x, s[1..], lane);
      Absent(s[1..], s[0].0);
      assert Against(x, s)[1..] == Against(x, s[1..]);
    }
  }

  lemma {:induction false} AgainstFirst(x: (int, Entry), s: Lanes)
    requires forall i :: 0 <= i < |s| ==> s[i].0 != x.0 && s[i].1.id != x.1.id
    ensures Losses(Against(x, s), x.0) == Below(s, x.1.id)
  {
    if s != [] {
      AgainstFirst(x, s[1..]);
      assert Against(x, s)[1..] == Against(x, s[1..]);
    }
  }

  /** A lane loses to exactly the lanes with smaller ids, whatever the order of the pairs. */
  lemma {:induction false} LossesAreBelow(s: Lanes, lane: int)
    requires WellRanked(s)
    ensures Losses(Outcomes(s), lane)
         == match Lookup(s, lane) case None => 0 case Some(e) => Below(s, e.id)
  {
    if s != [] {
      LossesAreBelow(s[1..], lane);
      LossesAppend(Against(s[0], s[1..]), Outcomes(s[1..]), lane);
      if s[0].0 == lane {
        Absent(s[1..], lane);
        AgainstFirst(s[0], s[1..]);
      } else {
        AgainstOther(s[0], s[1..], lane);
      }
    }
  }

  predicate Apart(a: (int, Entry), b: (int, Entry)) {
    a.0 != b.0 && a.1.id != b.1.id
  }

  /** `x` shares neither lane nor id with any of `s`. */
  ghost predicate ApartFrom(x: (int, Entry), s: Lanes) {
    forall i :: 0 <= i < |s| ==> Apart(s[i], x)
  }

  lemma {:induction false} ConsRanked(x: (int, Entry), s: Lanes)
    requires WellRanked(s) && ApartFrom(x, s)
    ensures WellRanked([x] + s)
  {
  }

  lemma {:induction false} RankedHead(s: Lanes)
    requires WellRanked(s) && s != []
    ensures WellRanked(s[1..]) && ApartFrom(s[0], s[1..])
  {
  }

  lemma {:induction false} InsertApart(y: (int, Entry), x: (int, Entry), s: Lanes, key: ((int, Entry)) -> int)
    requires ApartFrom(y, s) && Apart(x, y)
    ensures ApartFrom(y, Insert(x, s, key))
  {
    var t := Insert(x, s, key);
    InsertKeeps(x, s, key);
    forall i | 0 <= i < |t| ensures Apart(t[i], y) {
      assert t[i] in multiset(t);
      assert t[i] == x || t[i] in s;
    }
  }

  lemma {:induction false} InsertRanked(x: (int, Entry), s: Lanes, key: ((int, Entry)) -> int)
    requires WellRanked(s) && ApartFrom(x, s)
    ensures WellRanked(Insert(x, s, key))
  {
    if s == [] || key(x) <= key(s[0]) {
      ConsRanked(x, s);
    } else {
      RankedHead(s);
      InsertRanked(x, s[1..], key);
      InsertApart(s[0], x, s[1..], key);
      ConsRanked(s[0], Insert(x, s[1..], key));
    }
  }

  lemma {:induction false} SortRanked(s: Lanes, key: ((int, Entry)) -> int)
    requires WellRanked(s)
    ensures WellRanked(SortBy(s, key))
  {
    if s != [] {
      var t := SortBy(s[1..], key);
      SortRanked(s[1..], key);
      SortKeeps(s[1..], key);
      forall i | 0 <= i < |t| ensures Apart(t[i], s[0]) {
        assert t[i] in multiset(t);
        assert t[i] in s[1..];
      }
      InsertRanked(s[0], t, key);
    }
  }

  lemma {:induction false} InsertBelow(x: (int, Entry), s: Lanes, key: ((int, Entry)) -> int, id: int)
    ensures Below(Insert(x, s, key), id) == (if x.1.id < id then 1 else 0) + Below(s, id)
  {
    if s != [] && key(x) > key(s[0]) {
      InsertBelow(x, s[1..], key, id);
    } else {
      assert ([x] + s)[1..] == s;
    }
  }

  lemma {:induction false} SortBelow(s: Lanes, key: ((int, Entry)) -> int, id: int)
    ensures Below(SortBy(s, key), id) == Below(s, id)
  {
    if s != [] {
      SortBelow(s[1..], key, id);
      InsertBelow(s[0], SortBy(s[1..], key), key, id);
    }
  }

  lemma {:induction false} FoundAt(s: Lanes, lane: int) returns (i: nat)
    requires Lookup(s, lane).Some?
    ensures i < |s| && s[i] == (lane, Lookup(s, lane).value)
  {
    if s[0].0 == lane {
      i := 0;
    } else {
      i := FoundAt(s[1..], lane);
      i := i + 1;
    }
  }

  lemma {:induction false} SortLookup(s: Lanes, key: ((int, Entry)) -> int, lane: int)
    requires WellRanked(s)
    ensures Lookup(SortBy(s, key), lane) == Lookup(s, lane)
  {
    var t := SortBy(s, key);
    SortRanked(s, key);
    SortKeeps(s, key);
    if Lookup(s, lane).Some? {
      var i := FoundAt(s, lane);
      assert s[i] in multiset(t);
      var j :| 0 <= j < |t| && t[j] == s[i];
      LookupAt(t, j);
    } else if Lookup(t, lane).Some? {
      var j := FoundAt(t, lane);
      assert t[j] in multiset(s);
      var i :| 0 <= i < |s| && s[i] == t[j];
      LookupAt(s, i);
    }
  }

  ghost predicate Ascending(s: Lanes) {
    forall i, j :: 0 <= i < j < |s| ==> s[i].1.id < s[j].1.id
  }

  lemma {:induction false} InsertAscending(x: (int, Entry), s: Lanes)
    requires Ascending(s) && forall i :: 0 <= i < |s| ==> s[i].1.id != x.1.id
    ensures Ascending(Insert(x, s, (e: (int, Entry)) => e.1.id))
  {
    if s != [] && x.1.id > s[0].1.id {
      var t := Insert(x, s[1..], (e: (int, Entry)) => e.1.id);
      InsertAscending(x, s[1..]);
      forall i | 0 <= i < |t| ensures s[0].1.id < t[i].1.id {
        InsertIn(x, s[1..], (e: (int, Entry)) => e.1.id, t[i]);
      }
    }
  }

  lemma {:induction false} SortAscending(s: Lanes)
    requires WellRanked(s)
    ensures Ascending(Ordered(s))
  {
    if s != [] {
      var t := Ordered(s[1..]);
      SortAscending(s[1..]);
      SortKeeps(s[1..], (e: (int, Entry)) => e.1.id);
      forall i | 0 <= i < |t| ensures t[i].1.id != s[0].1.id {
        assert t[i] in multiset(t);
        assert t[i] in s[1..];
      }
      InsertAscending(s[0], t);
    }
  }

  lemma {:induction false} NoneBelow(s: Lanes, id: int)
    requires forall i :: 0 <= i < |s| ==> s[i].1.id >= id
    ensures Below(s, id) == 0
  {
    if s != [] {
      NoneBelow(s[1..], id);
    }
  }

  lemma {:induction false} BelowPlace(s: Lanes, lane: int)
    requires Ascending(s) && Keyed(s) && Lookup(s, lane).Some?
    ensures Place(s, lane) < |s|
    ensures Below(s, Lookup(s, lane).value.id) == Place(s, lane)
  {
    var id := Lookup(s, lane).value.id;
    if s[0].0 == lane {
      NoneBelow(s[1..], id);
    } else {
      var i := FoundAt(s, lane);
      BelowPlace(s[1..], lane);
    }
  }

  /** In a race with distinct ids a lane's rank is the number of pairwise comparisons it lost. */
  lemma {:induction false} RankIsLosses(lanes: Lanes, lane: int)
    requires WellRanked(lanes)
    ensures Losses(Outcomes(ByLane(lanes)), lane)
         == if Lookup(lanes, lane).Some? then Place(Ordered(lanes), lane) else 0
  {
    var byId := (e: (int, Entry)) => e.1.id;
    var byLane := (e: (int, Entry)) => e.0;
    SortRanked(lanes, byLane);
    SortLookup(lanes, byLane, lane);
    LossesAreBelow(ByLane(lanes), lane);
    if Lookup(lanes, lane).Some? {
      var id := Lookup(lanes, lane).value.id;
      SortBelow(lanes, byLane, id);
      SortBelow(lanes, byId, id);
      SortLookup(lanes, byId, lane);
      SortRanked(lanes, byId);
      SortAscending(lanes);
      BelowPlace(Ordered(lanes), lane);
    }
  }

  // ----- the aggregates -----

  function Count(stats: Dict<StatKey, LaneStat>, key: StatKey, d: LaneStat): Dict<StatKey, LaneStat> {
    Put(stats, key, LookupOr(stats, key, NO_STAT).Plus(d))
  }

  /** What one lane of a race with `n >= 2` lanes adds. */
  function Delta(ordered: Lanes, lane: int, copies: nat): LaneStat
    requires |ordered| >= 2
  {
    var n := |ordered|;
    LaneStat(1, if lane == ordered[0].0 then 1 else 0, 1.0 / n as real, copies,
             Place(ordered, lane) as real / (n - 1) as real)
  }

  function CountLane(stats: Dict<StatKey, LaneStat>, key: RaceKey, week: string, ordered: Lanes,
                     lane: (int, Entry)): Dict<StatKey, LaneStat>
    requires |ordered| >= 2
  {
    var d := Delta(ordered, lane.0, lane.1.copies);
    var all := Count(stats, StatKey(key.leader, key.leaderClass, lane.0, lane.1.name, All), d);
    Count(all, StatKey(key.leader, key.leaderClass, lane.0, lane.1.name, Week(week)), d)
  }

  function CountLanes(stats: Dict<StatKey, LaneStat>, key: RaceKey, week: string, ordered: Lanes,
                      lanes: Lanes): Dict<StatKey, LaneStat>
    requires |ordered| >= 2
  {
    if lanes == [] then stats
    else
      var last := |lanes| - 1;
      CountLane(CountLanes(stats, key, week, ordered, lanes[..last]), key, week, ordered, lanes[last])
  }

  predicate FeesMatch(a: int, b: int) {
    var low, high := if a < b then a else b, if a < b then b else a;
    low > 0 && 100 * high <= 105 * low
  }

  function Compared(s: PairStat, a: Entry, b: Entry): PairStat {
    var win := if a.id < b.id then 1 else 0;
    var matched := FeesMatch(a.fee, b.fee);
    PairStat(s.comparisons + 1, s.winsA + win, s.matched + if matched then 1 else 0,
             s.matchedWinsA + if matched then win else 0)
  }

  function CountPair(pairs: Dict<PairKey, PairStat>, key: RaceKey, a: (int, Entry), b: (int, Entry))
    : Dict<PairKey, PairStat>
  {
    var k := PairKey(key.leader, key.leaderClass, a.0, a.1.name, b.0, b.1.name);
    Put(pairs, k, Compared(LookupOr(pairs, k, NO_PAIR), a.1, b.1))
  }

  function PairsAgainst(pairs: Dict<PairKey, PairStat>, key: RaceKey, a: (int, Entry), s: Lanes)
    : Dict<PairKey, PairStat>
    decreases s
  {
    if s == [] then pairs else PairsAgainst(CountPair(pairs, key, a, s[0]), key, a, s[1..])
  }

  function PairsOf(pairs: Dict<PairKey, PairStat>, key: RaceKey, s: Lanes): Dict<PairKey, PairStat>
    decreases s
  {
    if s == [] then pairs else PairsOf(PairsAgainst(pairs, key, s[0], s[1..]), key, s[1..])
  }

  function AddRace(t: Tally, race: (RaceKey, Race)): Tally {
    var lanes := race.1.lanes;
    if |lanes| < 2 then t
    else
      SortSize(lanes, (e: (int, Entry)) => e.1.id);
      Tally(CountLanes(t.stats, race.0, race.1.week, Ordered(lanes), lanes),
            PairsOf(t.pairs, race.0, ByLane(lanes)), t.analyzable + 1)
  }

  function Analysed(races: Races): Tally {
    if races == [] then Tally([], [], 0) else AddRace(Analysed(races[..|races| - 1]), races[|races| - 1])
  }

  lemma {:induction false} SortSize(s: Lanes, key: ((int, Entry)) -> int)
    ensures |SortBy(s, key)| == |s|
  {
    SortKeeps(s, key);
    assert |multiset(SortBy(s, key))| == |multiset(s)|;
  }

  // ----- the loops -----

  method TallyLanes(stats0: Dict<StatKey, LaneStat>, race: (RaceKey, Race))
    returns (stats: Dict<StatKey, LaneStat>)
    requires |race.1.lanes| >= 2
    ensures |Ordered(race.1.lanes)| == |race.1.lanes|
    ensures stats == CountLanes(stats0, race.0, race.1.week, Ordered(race.1.lanes), race.1.lanes)
  {
    var lanes := race.1.lanes;
    SortSize(lanes, (e: (int, Entry)) => e.1.id);
    var ordered := Ordered(lanes);
    stats := stats0;
    for i := 0 to |lanes|
      invariant stats == CountLanes(stats0, race.0, race.1.week, ordered, lanes[..i])
    {
      var (lane, v) := lanes[i];
      var d := Delta(ordered, lane, v.copies);
      stats := Count(stats, StatKey(race.0.leader, race.0.leaderClass, lane, v.name, All), d);
      stats := Count(stats, StatKey(race.0.leader, race.0.leaderClass, lane, v.name, Week(race.1.week)), d);
      assert lanes[..i + 1][..i] == lanes[..i];
    }
    assert lanes[..|lanes|] == lanes;
  }

  method TallyPairs(pairs0: Dict<PairKey, PairStat>, key: RaceKey, lanes: Lanes)
    returns (pairs: Dict<PairKey, PairStat>)
    ensures pairs == PairsOf(pairs0, key, ByLane(lanes))
  {
    var s := ByLane(lanes);
    pairs := pairs0;
    for i := 0 to |s|
      invariant PairsOf(pairs, key, s[i..]) == PairsOf(pairs0, key, s)
    {
      ghost var before := pairs;
      assert s[i..][0] == s[i] && s[i..][1..] == s[i + 1..];
      for j := i + 1 to |s|
        invariant PairsAgainst(pairs, key, s[i], s[j..]) == PairsAgainst(before, key, s[i], s[i + 1..])
      {
        assert s[j..][0] == s[j] && s[j..][1..] == s[j + 1..];
        pairs := CountPair(pairs, key, s[i], s[j]);
      }
    }
  }

  method Analyse(races: Races) returns (t: Tally)
    ensures t == Analysed(races)
  {
    t := Tally([], [], 0);
    for i := 0 to |races|
      invariant t == Analysed(races[..i])
    {
      assert races[..i + 1][..i] == races[..i];
      if |races[i].1.lanes| >= 2 {
        var stats := TallyLanes(t.stats, races[i]);
        var pairs := TallyPairs(t.pairs, races[i].0, races[i].1.lanes);
        t := Tally(stats, pairs, t.analyzable + 1);
      }
    }
    assert races[..|races|] == races;
  }

  // ----- conservation -----

  datatype Measure = Presence | Firsts | Neutral

  function Value(m: Measure, s: LaneStat): real {
    match m
    case Presence => s.presence as real
    case Firsts => s.firsts as real
    case Neutral => s.neutral
  }

  /** One measure summed over the rows of all time, or over the rows of every week. */
  function Of(m: Measure, weekly: bool): (StatKey, LaneStat) -> real {
    (k: StatKey, s: LaneStat) => if k.period.Week? == weekly then Value(m, s) else 0.0
  }

  lemma {:induction false} CountTotal(stats: Dict<StatKey, LaneStat>, key: StatKey, d: LaneStat, m: Measure,
                                      weekly: bool)
    ensures Total(Count(stats, key, d), Of(m, weekly))
         == Total(stats, Of(m, weekly)) + if key.period.Week? == weekly then Value(m, d) else 0.0
  {
    TotalPut(stats, key, LookupOr(stats, key, NO_STAT).Plus(d), Of(m, weekly));
  }

  function Gain(m: Measure, ordered: Lanes, lanes: Lanes): real
    requires |ordered| >= 2
  {
    if lanes == [] then 0.0
    else
      var last := |lanes| - 1;
      Gain(m, ordered, lanes[..last]) + Value(m, Delta(ordered, lanes[last].0, lanes[last].1.copies))
  }

  lemma {:induction false} LanesTotal(stats: Dict<StatKey, LaneStat>, key: RaceKey, week: string, ordered: Lanes,
                                      lanes: Lanes, m: Measure, weekly: bool)
    requires |ordered| >= 2
    ensures Total(CountLanes(stats, key, week, ordered, lanes), Of(m, weekly))
         == Total(stats, Of(m, weekly)) + Gain(m, ordered, lanes)
  {
    if lanes != [] {
      var last := |lanes| - 1;
      LanesTotal(stats, key, week, ordered, lanes[..last], m, weekly);
      var before := CountLanes(stats, key, week, ordered, lanes[..last]);
      var (lane, v) := lanes[last];
      var d := Delta(ordered, lane, v.copies);
      var all := StatKey(key.leader, key.leaderClass, lane, v.name, All);
      CountTotal(before, all, d, m, weekly);
      CountTotal(Count(before, all, d), StatKey(key.leader, key.leaderClass, lane, v.name, Week(week)), d, m, weekly);
    }
  }

  lemma {:induction false} PlainGain(ordered: Lanes, lanes: Lanes)
    requires |ordered| >= 2
    ensures Gain(Presence, ordered, lanes) == |lanes| as real
    ensures Gain(Neutral, ordered, lanes) == |lanes| as real * (1.0 / |ordered| as real)
  {
    if lanes != [] {
      PlainGain(ordered, lanes[..|lanes| - 1]);
    }
  }

  lemma {:induction false} FirstsGain(ordered: Lanes, lanes: Lanes)
    requires |ordered| >= 2 && Keyed(lanes)
    ensures Gain(Firsts, ordered, lanes)
         == if exists i :: 0 <= i < |lanes| && lanes[i].0 == ordered[0].0 then 1.0 else 0.0
  {
    if lanes != [] {
      var last := |lanes| - 1;
      FirstsGain(ordered, lanes[..last]);
      if lanes[last].0 != ordered[0].0 {
        assert forall i :: 0 <= i < last ==> lanes[i] == lanes[..last][i];
      }
    }
  }

  lemma {:induction false} WinnerRuns(lanes: Lanes)
    requires |Ordered(lanes)| > 0
    ensures exists i :: 0 <= i < |lanes| && lanes[i].0 == Ordered(lanes)[0].0
  {
    var first := Ordered(lanes)[0];
    SortKeeps(lanes, (e: (int, Entry)) => e.1.id);
    assert first in multiset(lanes);
    var i :| 0 <= i < |lanes| && lanes[i] == first;
  }

  lemma {:induction false} Parts(n: real)
    requires n > 0.0
    ensures n * (1.0 / n) == 1.0
  {
  }

  /** A race adds one first and one neutral expectation, spread over its lanes. */
  lemma {:induction false} RaceGain(lanes: Lanes, m: Measure)
    requires Keyed(lanes) && |lanes| >= 2
    ensures |Ordered(lanes)| == |lanes|
    ensures Gain(m, Ordered(lanes), lanes) == if m == Presence then |lanes| as real else 1.0
  {
    SortSize(lanes, (e: (int, Entry)) => e.1.id);
    if m == Firsts {
      WinnerRuns(lanes);
      FirstsGain(Ordered(lanes), lanes);
    } else {
      PlainGain(Ordered(lanes), lanes);
      Parts(|lanes| as real);
    }
  }

  function Lined(races: Races): nat {
    if races == [] then 0
    else
      var n := |races[|races| - 1].1.lanes|;
      Lined(races[..|races| - 1]) + if n < 2 then 0 else n
  }

  /** Summed over the lanes, firsts and the neutral expectation both equal the number of
      analyzable races, and presences the lanes of those races; the weeks sum to the same. */
  lemma {:induction false} TotalsConserved(races: Races, m: Measure, weekly: bool)
    requires AllKeyed(races)
    ensures Total(Analysed(races).stats, Of(m, weekly))
         == if m == Presence then Lined(races) as real else Analysed(races).analyzable as real
  {
    if races != [] {
      var before := races[..|races| - 1];
      var (key, race) := races[|races| - 1];
      TotalsConserved(before, m, weekly);
      if |race.lanes| >= 2 {
        RaceGain(race.lanes, m);
        LanesTotal(Analysed(before).stats, key, race.week, Ordered(race.lanes), race.lanes, m, weekly);
      }
    }
  }

  /** The comparisons a lane lost, in one row of the pair table. */
  function LostBy(lane: int): (PairKey, PairStat) -> real {
    (k: PairKey, s: PairStat) =>
      (if k.a == lane then (s.comparisons - s.winsA) as real else 0.0) + if k.b == lane then s.winsA as real else 0.0
  }

  lemma {:induction false} CountPairLosses(pairs: Dict<PairKey, PairStat>, key: RaceKey, a: (int, Entry),
                                           b: (int, Entry), lane: int)
    requires a.0 != b.0
    ensures Total(CountPair(pairs, key, a, b), LostBy(lane))
         == Total(pairs, LostBy(lane)) + if Lost(Outcome(a.0, b.0, a.1.id < b.1.id), lane) then 1.0 else 0.0
  {
    var k := PairKey(key.leader, key.leaderClass, a.0, a.1.name, b.0, b.1.name);
    TotalPut(pairs, k, Compared(LookupOr(pairs, k, NO_PAIR), a.1, b.1), LostBy(lane));
  }

  lemma {:induction false} AgainstLosses(pairs: Dict<PairKey, PairStat>, key: RaceKey, a: (int, Entry), s: Lanes,
                                         lane: int)
    requires forall i :: 0 <= i < |s| ==> s[i].0 != a.0
    ensures Total(PairsAgainst(pairs, key, a, s), LostBy(lane))
         == Total(pairs, LostBy(lane)) + Losses(Against(a, s), lane) as real
    decreases s
  {
    if s != [] {
      CountPairLosses(pairs, key, a, s[0], lane);
      AgainstLosses(CountPair(pairs, key, a, s[0]), key, a, s[1..], lane);
      assert Against(a, s)[1..] == Against(a, s[1..]);
    }
  }

  lemma {:induction false} PairLosses(pairs: Dict<PairKey, PairStat>, key: RaceKey, s: Lanes, lane: int)
    requires Keyed(s)
    ensures Total(PairsOf(pairs, key, s), LostBy(lane))
         == Total(pairs, LostBy(lane)) + Losses(Outcomes(s), lane) as real
    decreases s
  {
    if s != [] {
      AgainstLosses(pairs, key, s[0], s[1..], lane);
      PairLosses(PairsAgainst(pairs, key, s[0], s[1..]), key, s[1..], lane);
      LossesAppend(Against(s[0], s[1..]), Outcomes(s[1..]), lane);
    }
  }

  /** The sum of a lane's ranks over the races it took part in. */
  function RankTotal(races: Races, lane: int): nat {
    if races == [] then 0
    else
      var lanes := races[|races| - 1].1.lanes;
      RankTotal(races[..|races| - 1], lane)
      + if |lanes| >= 2 && Lookup(lanes, lane).Some? then Place(Ordered(lanes), lane) else 0
  }

  ghost predicate AllRanked(races: Races) {
    forall i :: 0 <= i < |races| ==> WellRanked(races[i].1.lanes)
  }

  /** The pair table and the rank column agree: with distinct ids, the comparisons a lane lost
      over the whole table are the sum of its ranks. */
  lemma {:induction false} LossesAreRanks(races: Races, lane: int)
    requires AllRanked(races)
    ensures Total(Analysed(races).pairs, LostBy(lane)) == RankTotal(races, lane) as real
  {
    if races != [] {
      var before := races[..|races| - 1];
      var (key, race) := races[|races| - 1];
      assert AllRanked(before);
      LossesAreRanks(before, lane);
      if |race.lanes| >= 2 {
        SortRanked(race.lanes, (e: (int, Entry)) => e.0);
        PairLosses(Analysed(before).pairs, key, ByLane(race.lanes), lane);
        RankIsLosses(race.lanes, lane);
      }
    }
  }

  /** Both conservation laws, from the rows. */
  lemma {:induction false} RowsConserved(rows: seq<Row>, lane: int, weekly: bool)
    ensures var t := Analysed(Collect(rows));
            && Total(t.stats, Of(Firsts, weekly)) == Total(t.stats, Of(Neutral, weekly)) == t.analyzable as real
            && (DistinctIds(rows) ==> Total(t.pairs, LostBy(lane)) == RankTotal(Collect(rows), lane) as real)
  {
    var races := Collect(rows);
    CollectKeyed(rows);
    TotalsConserved(races, Firsts, weekly);
    TotalsConserved(races, Neutral, weekly);
    if DistinctIds(rows) {
      forall k | 0 <= k < |races| ensures WellRanked(races[k].1.lanes) {
        CollectedAreRanked(rows, k);
      }
      LossesAreRanks(races, lane);
    }
  }
}
