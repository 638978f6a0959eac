/** The ingestion pipeline as a state machine: a provider stream with replay, the channel and
    buffer in front of the table, disconnects, crashes and restarts. Resuming, restarting and
    committing are the operations of GrpcConnection and BatchInserter. */
module Pipeline {
  import opened Prelude
  import opened TradeStore
  import opened BatchInserter
  import opened GrpcConnection

  /** What a trade stores in every overwritten column; the handler adds the creation time. */
  datatype Trade = Trade(key: RowKey, slot: nat, columns: seq<int>)

  /** A transaction of the chain and the trades the handler makes of it. */
  datatype LedgerTx = LedgerTx(slot: nat, trades: seq<Trade>)

  /** A live stream: position of the next transaction to deliver, highest slot handled since it
      was opened, and the trades its running handler has still to send. */
  datatype Stream = Down | Up(cursor: nat, last: Option<nat>, sending: Option<seq<TradeRow>>)

  /** `pending` is the channel followed by nothing but the inserter's buffer in front of it:
      rows received but not committed, oldest first. */
  datatype State = State(ledger: seq<LedgerTx>, table: Table, pending: seq<TradeRow>, stream: Stream,
                         fromSlot: Option<nat>)

  function TradeOf(r: TradeRow): Trade { Trade(r.key, r.slot, r.columns) }

  function RowsAt(trades: seq<Trade>, now: int): (r: seq<TradeRow>)
    ensures |r| == |trades|
    ensures forall i :: 0 <= i < |r| ==> TradeOf(r[i]) == trades[i]
  {
    seq(|trades|, i requires 0 <= i < |trades| => TradeRow(trades[i].key, trades[i].slot, trades[i].columns, None, now))
  }

  // ----- the ledger -----

  ghost predicate OnLedger(ledger: seq<LedgerTx>, t: Trade) {
    exists i :: 0 <= i < |ledger| && t in ledger[i].trades
  }

  /** Slots never go back; a trade carries its transaction's slot; a key names one trade. */
  ghost predicate GoodLedger(ledger: seq<LedgerTx>) {
    && (forall i, j :: 0 <= i < j < |ledger| ==> ledger[i].slot <= ledger[j].slot)
    && (forall i, t :: 0 <= i < |ledger| && t in ledger[i].trades ==> t.slot == ledger[i].slot)
    && (forall t, u :: OnLedger(ledger, t) && OnLedger(ledger, u) && t.key == u.key ==> t == u)
  }

  /** Where a replay from `slot` begins: the first transaction at or after it. */
  function FirstAt(ledger: seq<LedgerTx>, slot: nat): (i: nat)
    ensures i <= |ledger|
    ensures forall k :: 0 <= k < i ==> ledger[k].slot < slot
    ensures i < |ledger| ==> ledger[i].slot >= slot
  {
    if ledger == [] || ledger[0].slot >= slot then 0
    else
      var i := 1 + FirstAt(ledger[1..], slot);
      assert forall k :: 1 <= k < i ==> ledger[k] == ledger[1..][k - 1];
      i
  }

  /** The invariants speak of the transactions in a scope: those from `start` on, however far the
      ledger grows, except the ones already missed. */
  ghost function Due(start: nat, missed: set<nat>): iset<nat> {
    iset i: nat | IsDue(start, missed, i)
  }

  ghost predicate IsDue(start: nat, missed: set<nat>, i: nat) {
    i >= start && i !in missed
  }

  ghost function From(start: nat): iset<nat> {
    Due(start, {})
  }

  function Tip(ledger: seq<LedgerTx>): nat {
    if ledger == [] then 0 else ledger[|ledger| - 1].slot
  }

  // ----- steps -----

  datatype Step =
    | Grow(tx: LedgerTx)
    | Connect
    | Begin(now: int)
    | Send
    | Finish
    | Disconnect
    | Commit(n: nat)
    | Crash

  /** When a step of a run is possible. Handlers do not fail, no replay is refused, and
      committing takes the oldest pending rows: no chunk fails. */
  ghost predicate Enabled(s: State, step: Step) {
    match step
    case Grow(tx) => tx.slot >= Tip(s.ledger) && GoodLedger(s.ledger + [tx])
    case Connect => s.stream.Down?
    case Begin(_) => s.stream.Up? && s.stream.sending.None? && s.stream.cursor < |s.ledger|
    case Send => s.stream.Up? && s.stream.sending.Some? && s.stream.sending.value != []
    case Finish => s.stream.Up? && s.stream.sending == Some([]) && s.stream.cursor < |s.ledger|
    case Disconnect => s.stream.Up? && s.stream.sending.None?
    case Commit(n) => n <= |s.pending| && n <= CHUNK
    case Crash => true
  }

  ghost function After(s: State, step: Step): State
    requires Enabled(s, step)
  {
    match step
    case Grow(tx) => s.(ledger := s.ledger + [tx])
    case Connect =>
      s.(stream := Up(if s.fromSlot.Some? then FirstAt(s.ledger, s.fromSlot.value) else |s.ledger|, None, None))
    case Begin(now) => s.(stream := s.stream.(sending := Some(RowsAt(s.ledger[s.stream.cursor].trades, now))))
    case Send =>
      s.(pending := s.pending + [s.stream.sending.value[0]],
         stream := s.stream.(sending := Some(s.stream.sending.value[1..])))
    case Finish =>
      var slot, last := s.ledger[s.stream.cursor].slot, s.stream.last;
      s.(stream := Up(s.stream.cursor + 1, Some(if last.Some? && last.value > slot then last.value else slot), None))
    case Disconnect => s.(stream := Down, fromSlot := NextFromSlot(s.fromSlot, Ended(StreamEnd(s.stream.last, false))))
    case Commit(n) => s.(table := Written(s.table, s.pending[..n]), pending := s.pending[n..])
    case Crash => s.(pending := [], stream := Down, fromSlot := RestartSlot(s.table))
  }

  /** The guard of a run that loses nothing: every connection asks for a replay point, and a
      process only crashes once something was committed. */
  ghost predicate ReplayPointKnown(s: State, step: Step) {
    && (step.Connect? ==> s.fromSlot.Some?)
    && (step.Crash? ==> s.table != map[])
  }

  /** Collection starts with an empty table, either from a replay point the chain has reached
      or on a live stream; `start` is the first transaction it is responsible for. */
  ghost predicate Init(s: State, start: nat) {
    && GoodLedger(s.ledger) && s.table == map[] && s.pending == []
    && if s.fromSlot.Some? then s.stream.Down? && s.ledger != [] && s.fromSlot.value <= Tip(s.ledger)
                               && start == FirstAt(s.ledger, s.fromSlot.value)
       else s.stream == Up(|s.ledger|, None, None) && start == |s.ledger|
  }

  // ----- the invariant -----

  ghost predicate Stored(table: Table, t: Trade) {
    t.key in table && TradeOf(table[t.key]) == t
  }

  ghost predicate Holds(rows: seq<TradeRow>, t: Trade) {
    exists p :: 0 <= p < |rows| && TradeOf(rows[p]) == t
  }

  ghost predicate Accounted(table: Table, rows: seq<TradeRow>, t: Trade) {
    Stored(table, t) || Holds(rows, t)
  }

  ghost predicate AllAccounted(table: Table, rows: seq<TradeRow>, trades: seq<Trade>) {
    forall t :: t in trades ==> Accounted(table, rows, t)
  }

  /** Nothing in scope before the point of delivery is missing. */
  ghost predicate NothingSkipped(s: State, scope: iset<nat>) {
    && s.stream.Up? && s.stream.cursor <= |s.ledger|
    && forall k :: k in scope && k < s.stream.cursor ==> AllAccounted(s.table, s.pending, s.ledger[k].trades)
  }

  ghost predicate Genuine(ledger: seq<LedgerTx>, rows: seq<TradeRow>) {
    forall r :: r in rows ==> OnLedger(ledger, TradeOf(r))
  }

  ghost predicate TableGenuine(s: State) {
    forall k :: k in s.table ==> s.table[k].key == k && OnLedger(s.ledger, TradeOf(s.table[k]))
  }

  /** Every transaction in scope below `slot` is stored or on its way. */
  ghost predicate CoveredBelow(s: State, scope: iset<nat>, slot: nat, rows: seq<TradeRow>) {
    forall i :: i in scope && i < |s.ledger| && s.ledger[i].slot < slot ==>
      AllAccounted(s.table, rows, s.ledger[i].trades)
  }

  ghost predicate StreamInv(s: State, scope: iset<nat>) {
    s.stream.Up? ==>
      && s.stream.cursor <= |s.ledger|
      && (forall i :: i in scope && i < s.stream.cursor ==> AllAccounted(s.table, s.pending, s.ledger[i].trades))
      && (s.stream.last.Some? ==> s.stream.cursor > 0 && s.stream.last.value <= s.ledger[s.stream.cursor - 1].slot)
      && (s.stream.sending.Some? ==>
            && s.stream.cursor < |s.ledger| && Genuine(s.ledger, s.stream.sending.value)
            && (forall r :: r in s.stream.sending.value ==> r.slot == s.ledger[s.stream.cursor].slot)
            && AllAccounted(s.table, s.pending + s.stream.sending.value, s.ledger[s.stream.cursor].trades))
  }

  ghost predicate ResumeInv(s: State, scope: iset<nat>) {
    s.fromSlot.Some? ==>
      s.ledger != [] && s.fromSlot.value <= Tip(s.ledger) && CoveredBelow(s, scope, s.fromSlot.value, s.pending)
  }

  /** Rows wait in an order that commits older slots first. */
  ghost predicate QueueInv(s: State, scope: iset<nat>) {
    forall p :: 0 <= p < |s.pending| ==> CoveredBelow(s, scope, s.pending[p].slot, s.pending[..p])
  }

  /** Below any stored slot everything in scope is stored. */
  ghost predicate CheckpointInv(s: State, scope: iset<nat>) {
    forall k :: k in s.table ==> CoveredBelow(s, scope, s.table[k].slot, [])
  }

  ghost predicate Inv(s: State, scope: iset<nat>) {
    && GoodLedger(s.ledger) && TableGenuine(s) && Genuine(s.ledger, s.pending)
    && StreamInv(s, scope) && ResumeInv(s, scope) && QueueInv(s, scope) && CheckpointInv(s, scope)
  }

  // ----- the invariant holds in every safe run -----

  lemma {:induction false} InitHolds(s: State, start: nat)
    requires Init(s, start)
    ensures Inv(s, From(start))
  {
    if s.fromSlot.Some? {
      forall i | start <= i < |s.ledger| ensures s.ledger[i].slot >= s.fromSlot.value {
        assert i > start ==> s.ledger[start].slot <= s.ledger[i].slot;
      }
    }
  }

  lemma {:induction false} LedgerGrows(ledger: seq<LedgerTx>, tx: LedgerTx, t: Trade)
    ensures OnLedger(ledger, t) ==> OnLedger(ledger + [tx], t)
  {
    if OnLedger(ledger, t) {
      var i :| 0 <= i < |ledger| && t in ledger[i].trades;
      assert (ledger + [tx])[i] == ledger[i];
    }
  }

  lemma {:induction false} SlotOnLedger(ledger: seq<LedgerTx>, t: Trade)
    requires GoodLedger(ledger) && OnLedger(ledger, t)
    ensures t.slot <= Tip(ledger)
  {
    var i :| 0 <= i < |ledger| && t in ledger[i].trades;
    assert i < |ledger| - 1 ==> ledger[i].slot <= ledger[|ledger| - 1].slot;
  }

  lemma {:induction false} GrowKeepsCovered(s: State, scope: iset<nat>, tx: LedgerTx, slot: nat, rows: seq<TradeRow>)
    requires Enabled(s, Grow(tx)) && slot <= Tip(s.ledger) && CoveredBelow(s, scope, slot, rows)
    ensures CoveredBelow(After(s, Grow(tx)), scope, slot, rows)
  {
    var s' := After(s, Grow(tx));
    forall i | i in scope && i < |s'.ledger| && s'.ledger[i].slot < slot
      ensures AllAccounted(s'.table, rows, s'.ledger[i].trades)
    {
      assert i < |s.ledger| ==> s'.ledger[i] == s.ledger[i];
    }
  }

  lemma {:induction false} GrowKeepsStream(s: State, scope: iset<nat>, tx: LedgerTx)
    requires StreamInv(s, scope) && ResumeInv(s, scope) && Enabled(s, Grow(tx))
    ensures StreamInv(After(s, Grow(tx)), scope) && ResumeInv(After(s, Grow(tx)), scope)
  {
    var s' := After(s, Grow(tx));
    assert forall i :: 0 <= i < |s.ledger| ==> s'.ledger[i] == s.ledger[i];
    forall t {
      LedgerGrows(s.ledger, tx, t);
    }
    if s.fromSlot.Some? {
      GrowKeepsCovered(s, scope, tx, s.fromSlot.value, s.pending);
    }
  }

  lemma {:induction false} GrowKeepsGenuine(s: State, tx: LedgerTx)
    requires GoodLedger(s.ledger) && TableGenuine(s) && Genuine(s.ledger, s.pending) && Enabled(s, Grow(tx))
    ensures TableGenuine(After(s, Grow(tx))) && Genuine(After(s, Grow(tx)).ledger, s.pending)
    ensures forall p :: 0 <= p < |s.pending| ==> s.pending[p].slot <= Tip(s.ledger)
    ensures forall k :: k in s.table ==> s.table[k].slot <= Tip(s.ledger)
  {
    forall t {
      LedgerGrows(s.ledger, tx, t);
    }
    forall p | 0 <= p < |s.pending| ensures s.pending[p].slot <= Tip(s.ledger) {
      assert s.pending[p] in s.pending;
      SlotOnLedger(s.ledger, TradeOf(s.pending[p]));
    }
    forall k | k in s.table ensures s.table[k].slot <= Tip(s.ledger) {
      SlotOnLedger(s.ledger, TradeOf(s.table[k]));
    }
  }

  lemma {:induction false} GrowKeepsInv(s: State, scope: iset<nat>, tx: LedgerTx)
    requires Inv(s, scope) && Enabled(s, Grow(tx))
    ensures Inv(After(s, Grow(tx)), scope)
  {
    GrowKeepsStream(s, scope, tx);
    GrowKeepsGenuine(s, tx);
    forall p | 0 <= p < |s.pending| {
      GrowKeepsCovered(s, scope, tx, s.pending[p].slot, s.pending[..p]);
    }
    forall k | k in s.table {
      GrowKeepsCovered(s, scope, tx, s.table[k].slot, []);
    }
  }

  lemma {:induction false} ConnectKeepsInv(s: State, scope: iset<nat>)
    requires Inv(s, scope) && Enabled(s, Connect) && ReplayPointKnown(s, Connect)
    ensures Inv(After(s, Connect), scope)
  {
    ConnectSkipsNothing(s, scope);
  }

  lemma {:induction false} ConnectSkipsNothing(s: State, scope: iset<nat>)
    requires ResumeInv(s, scope) && Enabled(s, Connect) && s.fromSlot.Some?
    ensures StreamInv(After(s, Connect), scope) && ResumeInv(After(s, Connect), scope)
    ensures NothingSkipped(After(s, Connect), scope)
  {
  }

  lemma {:induction false} BeginKeepsStream(s: State, scope: iset<nat>, now: int)
    requires GoodLedger(s.ledger) && StreamInv(s, scope) && Enabled(s, Begin(now))
    ensures StreamInv(After(s, Begin(now)), scope)
  {
    var trades := s.ledger[s.stream.cursor].trades;
    var rows := RowsAt(trades, now);
    forall r | r in rows ensures OnLedger(s.ledger, TradeOf(r)) && r.slot == s.ledger[s.stream.cursor].slot {
      assert TradeOf(r) in trades;
    }
    forall t | t in trades ensures Holds(s.pending + rows, t) {
      var i :| 0 <= i < |trades| && trades[i] == t;
      assert (s.pending + rows)[|s.pending| + i] == rows[i];
    }
  }

  lemma {:induction false} BeginKeepsInv(s: State, scope: iset<nat>, now: int)
    requires Inv(s, scope) && Enabled(s, Begin(now))
    ensures Inv(After(s, Begin(now)), scope)
  {
    BeginKeepsStream(s, scope, now);
  }

  lemma {:induction false} SendKeepsQueue(s: State, scope: iset<nat>)
    requires Inv(s, scope) && Enabled(s, Send)
    ensures QueueInv(After(s, Send), scope)
  {
    var s' := After(s, Send);
    var row := s.stream.sending.value[0];
    assert row in s.stream.sending.value;
    forall p | 0 <= p < |s'.pending| ensures CoveredBelow(s', scope, s'.pending[p].slot, s'.pending[..p]) {
      if p < |s.pending| {
        assert s'.pending[..p] == s.pending[..p] && s'.pending[p] == s.pending[p];
        assert CoveredBelow(s, scope, s.pending[p].slot, s.pending[..p]);
      } else {
        assert s'.pending[..p] == s.pending;
        forall i | i in scope && i < |s.ledger| && s.ledger[i].slot < row.slot
          ensures AllAccounted(s.table, s.pending, s.ledger[i].trades)
        {
          assert i < s.stream.cursor;
        }
      }
    }
  }

  lemma {:induction false} SendKeepsHeld(s: State, t: Trade)
    requires Enabled(s, Send) && Holds(s.pending, t)
    ensures Holds(After(s, Send).pending, t)
  {
    var p :| 0 <= p < |s.pending| && TradeOf(s.pending[p]) == t;
    assert After(s, Send).pending[p] == s.pending[p];
  }

  lemma {:induction false} SendKeepsStream(s: State, scope: iset<nat>)
    requires StreamInv(s, scope) && ResumeInv(s, scope) && Genuine(s.ledger, s.pending) && Enabled(s, Send)
    ensures var s' := After(s, Send);
            StreamInv(s', scope) && ResumeInv(s', scope) && Genuine(s'.ledger, s'.pending)
  {
    var s' := After(s, Send);
    var row, rest := s.stream.sending.value[0], s.stream.sending.value[1..];
    assert row in s.stream.sending.value;
    assert s'.pending + rest == s.pending + s.stream.sending.value;
    forall t | Holds(s.pending, t) {
      SendKeepsHeld(s, t);
    }
  }

  lemma {:induction false} SendKeepsInv(s: State, scope: iset<nat>)
    requires Inv(s, scope) && Enabled(s, Send)
    ensures Inv(After(s, Send), scope)
  {
    SendKeepsStream(s, scope);
    SendKeepsQueue(s, scope);
  }

  lemma {:induction false} FinishKeepsStream(s: State, scope: iset<nat>)
    requires GoodLedger(s.ledger) && StreamInv(s, scope) && Enabled(s, Finish)
    ensures StreamInv(After(s, Finish), scope)
  {
    assert s.pending + [] == s.pending;
  }

  lemma {:induction false} FinishKeepsInv(s: State, scope: iset<nat>)
    requires Inv(s, scope) && Enabled(s, Finish)
    ensures Inv(After(s, Finish), scope)
  {
    FinishKeepsStream(s, scope);
  }

  lemma {:induction false} DisconnectKeepsResume(s: State, scope: iset<nat>)
    requires GoodLedger(s.ledger) && StreamInv(s, scope) && ResumeInv(s, scope) && Enabled(s, Disconnect)
    ensures ResumeInv(After(s, Disconnect), scope)
  {
    if s.stream.last.Some? {
      forall i | i in scope && i < |s.ledger| && s.ledger[i].slot < s.stream.last.value
        ensures AllAccounted(s.table, s.pending, s.ledger[i].trades)
      {
        assert i < s.stream.cursor;
      }
    }
  }

  lemma {:induction false} DisconnectKeepsInv(s: State, scope: iset<nat>)
    requires Inv(s, scope) && Enabled(s, Disconnect)
    ensures Inv(After(s, Disconnect), scope)
  {
    DisconnectKeepsResume(s, scope);
  }

  lemma {:induction false} RestartBelowTip(s: State)
    requires GoodLedger(s.ledger) && TableGenuine(s) && s.table != map[]
    ensures s.ledger != [] && RestartSlot(s.table).value <= MaxSlot(s.table).value <= Tip(s.ledger)
    ensures exists k :: k in s.table && s.table[k].slot == MaxSlot(s.table).value
  {
    var k :| k in s.table && s.table[k].slot == MaxSlot(s.table).value;
    SlotOnLedger(s.ledger, TradeOf(s.table[k]));
  }

  lemma {:induction false} CrashKeepsResume(s: State, scope: iset<nat>)
    requires GoodLedger(s.ledger) && TableGenuine(s) && CheckpointInv(s, scope) && s.table != map[]
    ensures ResumeInv(After(s, Crash), scope)
  {
    RestartBelowTip(s);
    var k :| k in s.table && s.table[k].slot == MaxSlot(s.table).value;
    CoveredLower(s, After(s, Crash), scope, s.table[k].slot, RestartSlot(s.table).value, []);
  }

  lemma {:induction false} CoveredLower(s: State, s': State, scope: iset<nat>, slot: nat, lower: nat,
                                        rows: seq<TradeRow>)
    requires s'.ledger == s.ledger && s'.table == s.table && lower <= slot && CoveredBelow(s, scope, slot, rows)
    ensures CoveredBelow(s', scope, lower, rows)
  {
  }

  lemma {:induction false} CrashKeepsCheckpoint(s: State, scope: iset<nat>)
    requires CheckpointInv(s, scope)
    ensures CheckpointInv(After(s, Crash), scope)
  {
    forall k | k in s.table ensures CoveredBelow(After(s, Crash), scope, s.table[k].slot, []) {
      assert CoveredBelow(s, scope, s.table[k].slot, []);
    }
  }

  lemma {:induction false} CrashKeepsInv(s: State, scope: iset<nat>)
    requires Inv(s, scope) && Enabled(s, Crash) && ReplayPointKnown(s, Crash)
    ensures Inv(After(s, Crash), scope)
  {
    CrashKeepsResume(s, scope);
    CrashKeepsCheckpoint(s, scope);
  }

  /** One statement stores exactly the trades it carries and disturbs no other. */
  lemma {:induction false} WrittenStores(ledger: seq<LedgerTx>, table: Table, rows: seq<TradeRow>, t: Trade)
    requires GoodLedger(ledger) && Genuine(ledger, rows)
    ensures OnLedger(ledger, t) && (Stored(table, t) || Holds(rows, t)) ==> Stored(Written(table, rows), t)
  {
    BatchEqualsRowByRow(table, rows, CoalescedRows(rows));
    UpsertAllAt(table, rows, t.key);
    HoldsMentions(rows, t);
    if Mentions(rows, t.key) {
      LastRowHasKey(rows, t.key);
      assert OnLedger(ledger, TradeOf(LastRow(rows, t.key)));
    }
  }

  lemma {:induction false} HoldsMentions(rows: seq<TradeRow>, t: Trade)
    ensures Holds(rows, t) ==> Mentions(rows, t.key)
  {
    if Holds(rows, t) {
      var p :| 0 <= p < |rows| && TradeOf(rows[p]) == t;
      assert rows[p] in rows;
    }
  }

  /** Every row of the written table was there before or is one of the rows written. */
  lemma {:induction false} WrittenFrom(table: Table, rows: seq<TradeRow>, k: RowKey)
    requires k in Written(table, rows)
    ensures || (k in table && TradeOf(Written(table, rows)[k]) == TradeOf(table[k]))
            || (exists p :: 0 <= p < |rows| && rows[p].key == k && TradeOf(Written(table, rows)[k]) == TradeOf(rows[p]))
  {
    BatchEqualsRowByRow(table, rows, CoalescedRows(rows));
    UpsertAllAt(table, rows, k);
    if Mentions(rows, k) {
      LastRowHasKey(rows, k);
      var p :| 0 <= p < |rows| && rows[p] == LastRow(rows, k);
    }
  }

  lemma {:induction false} CommitCovers(s: State, scope: iset<nat>, n: nat, slot: nat, rows: seq<TradeRow>,
                                        rest: seq<TradeRow>)
    requires Inv(s, scope) && Enabled(s, Commit(n)) && CoveredBelow(s, scope, slot, rows)
    requires forall t :: Holds(rows, t) ==> Holds(s.pending[..n], t) || Holds(rest, t)
    ensures CoveredBelow(After(s, Commit(n)), scope, slot, rest)
  {
    var done := s.pending[..n];
    assert Genuine(s.ledger, done);
    forall i, t | i in scope && i < |s.ledger| && s.ledger[i].slot < slot && t in s.ledger[i].trades
      ensures Accounted(Written(s.table, done), rest, t)
    {
      assert AllAccounted(s.table, rows, s.ledger[i].trades);
      assert OnLedger(s.ledger, t);
      WrittenStores(s.ledger, s.table, done, t);
    }
  }

  lemma {:induction false} CommitAccounts(s: State, scope: iset<nat>, n: nat, i: nat, more: seq<TradeRow>)
    requires Inv(s, scope) && Enabled(s, Commit(n)) && i < |s.ledger|
    requires AllAccounted(s.table, s.pending + more, s.ledger[i].trades)
    ensures AllAccounted(Written(s.table, s.pending[..n]), s.pending[n..] + more, s.ledger[i].trades)
  {
    var done := s.pending[..n];
    assert Genuine(s.ledger, done);
    forall t | t in s.ledger[i].trades ensures Accounted(Written(s.table, done), s.pending[n..] + more, t) {
      assert OnLedger(s.ledger, t);
      WrittenStores(s.ledger, s.table, done, t);
      HoldsSplit(s.pending, more, n, t);
    }
  }

  lemma {:induction false} HoldsSplit(rows: seq<TradeRow>, more: seq<TradeRow>, n: nat, t: Trade)
    requires n <= |rows|
    ensures Holds(rows + more, t) ==> Holds(rows[..n], t) || Holds(rows[n..] + more, t)
  {
    if Holds(rows + more, t) {
      var p :| 0 <= p < |rows + more| && TradeOf((rows + more)[p]) == t;
      if p < n {
        assert rows[..n][p] == (rows + more)[p];
      } else {
        assert (rows[n..] + more)[p - n] == (rows + more)[p];
      }
    }
  }

  lemma {:induction false} CommitKeepsStream(s: State, scope: iset<nat>, n: nat)
    requires Inv(s, scope) && Enabled(s, Commit(n))
    ensures StreamInv(After(s, Commit(n)), scope) && ResumeInv(After(s, Commit(n)), scope)
  {
    forall t {
      HoldsSplit(s.pending, [], n, t);
    }
    assert s.pending + [] == s.pending && s.pending[n..] + [] == s.pending[n..];
    if s.fromSlot.Some? {
      CommitCovers(s, scope, n, s.fromSlot.value, s.pending, s.pending[n..]);
    }
    if s.stream.Up? {
      forall i | i in scope && i < s.stream.cursor {
        CommitAccounts(s, scope, n, i, []);
      }
      if s.stream.sending.Some? {
        CommitAccounts(s, scope, n, s.stream.cursor, s.stream.sending.value);
      }
    }
  }

  lemma {:induction false} CommitKeepsQueue(s: State, scope: iset<nat>, n: nat)
    requires Inv(s, scope) && Enabled(s, Commit(n))
    ensures QueueInv(After(s, Commit(n)), scope)
  {
    var rest := s.pending[n..];
    forall p | 0 <= p < |rest| ensures CoveredBelow(After(s, Commit(n)), scope, rest[p].slot, rest[..p]) {
      var q := n + p;
      assert s.pending[q] == rest[p];
      assert s.pending[..q][..n] == s.pending[..n] && s.pending[..q][n..] == rest[..p];
      assert s.pending[..q] + [] == s.pending[..q] && rest[..p] + [] == rest[..p];
      forall t {
        HoldsSplit(s.pending[..q], [], n, t);
      }
      CommitCovers(s, scope, n, rest[p].slot, s.pending[..q], rest[..p]);
    }
  }

  lemma {:induction false} HoldsPrefix(rows: seq<TradeRow>, p: nat, n: nat, t: Trade)
    requires p <= n <= |rows| && Holds(rows[..p], t)
    ensures Holds(rows[..n], t)
  {
    var q :| 0 <= q < p && TradeOf(rows[..p][q]) == t;
    assert rows[..n][q] == rows[..p][q];
  }

  lemma {:induction false} CommitKeepsCheckpoint(s: State, scope: iset<nat>, n: nat)
    requires Inv(s, scope) && Enabled(s, Commit(n))
    ensures TableGenuine(After(s, Commit(n))) && CheckpointInv(After(s, Commit(n)), scope)
  {
    var s', done := After(s, Commit(n)), s.pending[..n];
    forall k | k in s'.table
      ensures s'.table[k].key == k && OnLedger(s.ledger, TradeOf(s'.table[k]))
      ensures CoveredBelow(s', scope, s'.table[k].slot, [])
    {
      WrittenFrom(s.table, done, k);
      if k in s.table && TradeOf(s'.table[k]) == TradeOf(s.table[k]) {
        CommitCovers(s, scope, n, s.table[k].slot, [], []);
      } else {
        var p :| 0 <= p < |done| && done[p].key == k && TradeOf(s'.table[k]) == TradeOf(done[p]);
        assert s.pending[p] == done[p] && done[p] in s.pending;
        forall t | Holds(s.pending[..p], t) {
          HoldsPrefix(s.pending, p, n, t);
        }
        CommitCovers(s, scope, n, s.pending[p].slot, s.pending[..p], []);
      }
    }
  }

  lemma {:induction false} StepKeepsInv(s: State, scope: iset<nat>, step: Step)
    requires Inv(s, scope) && Enabled(s, step) && ReplayPointKnown(s, step)
    ensures Inv(After(s, step), scope)
  {
    match step {
      case Grow(tx) => GrowKeepsInv(s, scope, tx);
      case Connect => ConnectKeepsInv(s, scope);
      case Begin(now) => BeginKeepsInv(s, scope, now);
      case Send => SendKeepsInv(s, scope);
      case Finish => FinishKeepsInv(s, scope);
      case Disconnect => DisconnectKeepsInv(s, scope);
      case Commit(n) =>
        CommitKeepsStream(s, scope, n);
        CommitKeepsQueue(s, scope, n);
        CommitKeepsCheckpoint(s, scope, n);
        assert Genuine(s.ledger, s.pending[n..]);
      case Crash => CrashKeepsInv(s, scope);
    }
  }

  // ----- a flush is a run of commits -----

  /** Committing the oldest `n` pending rows, a chunk at a time. */
  ghost function CommitSteps(s: State, n: nat): State
    requires n <= |s.pending|
    decreases n
  {
    if n == 0 then s
    else
      var chunk := Min(n, CHUNK);
      CommitSteps(After(s, Commit(chunk)), n - chunk)
  }

  /** A flush in which no chunk fails does to the table what those steps do. */
  lemma {:induction false} FlushIsCommitSteps(s: State, buffer: seq<TradeRow>, channel: seq<TradeRow>,
                                              fails: nat -> bool, at: nat)
    requires NoFailure(fails) && at <= |buffer| && s.pending == buffer[at..] + channel
    ensures CommitSteps(s, |buffer| - at)
         == s.(table := WrittenAll(s.table, Committed(buffer, fails, at)), pending := channel)
    decreases |buffer| - at
  {
    if at < |buffer| {
      var end := ChunkEnd(|buffer|, at);
      CommitOfChunk(s, buffer, channel, at, end);
      ChunkSize(|buffer|, at);
      FirstCommit(s, |buffer| - at);
      FlushIsCommitSteps(After(s, Commit(end - at)), buffer, channel, fails, end);
      ChunkThenRest(s.table, buffer, fails, at);
    } else {
      assert buffer[at..] + channel == channel;
    }
  }

  lemma {:induction false} ChunkSize(n: nat, at: nat)
    requires at < n
    ensures Min(n - at, CHUNK) == ChunkEnd(n, at) - at && n - at - Min(n - at, CHUNK) == n - ChunkEnd(n, at)
  {
  }

  lemma {:induction false} FirstCommit(s: State, n: nat)
    requires 0 < n <= |s.pending|
    ensures CommitSteps(s, n) == CommitSteps(After(s, Commit(Min(n, CHUNK))), n - Min(n, CHUNK))
  {
  }

  lemma {:induction false} CommitOfChunk(s: State, buffer: seq<TradeRow>, channel: seq<TradeRow>, at: nat, end: nat)
    requires at < end <= |buffer| && end - at <= CHUNK && s.pending == buffer[at..] + channel
    ensures After(s, Commit(end - at))
         == s.(table := Written(s.table, buffer[at..end]), pending := buffer[end..] + channel)
  {
    assert s.pending[..end - at] == buffer[at..end];
    assert s.pending[end - at..] == buffer[end..] + channel;
  }

  lemma {:induction false} ChunkThenRest(table: Table, buffer: seq<TradeRow>, fails: nat -> bool, at: nat)
    requires NoFailure(fails) && at < |buffer|
    ensures var end := ChunkEnd(|buffer|, at);
            WrittenAll(table, Committed(buffer, fails, at))
            == WrittenAll(Written(table, buffer[at..end]), Committed(buffer, fails, end))
  {
    var end := ChunkEnd(|buffer|, at);
    WrittenOne(table, buffer[at..end]);
    WrittenAllAppend(table, [buffer[at..end]], Committed(buffer, fails, end));
  }

  lemma {:induction false} WrittenOne(table: Table, rows: seq<TradeRow>)
    ensures WrittenAll(table, [rows]) == Written(table, rows)
  {
    var batches := [rows];
    assert batches[..0] == [];
  }

  /** Without a replay point nothing was handled yet. */
  ghost predicate LiveInv(s: State, start: nat) {
    s.fromSlot.None? ==>
      if s.stream.Down? then s.table == map[] && s.pending == []
      else s.stream.last.None? ==>
             s.stream.cursor == start && (s.stream.sending.None? ==> s.table == map[] && s.pending == [])
  }

  lemma {:induction false} NothingWritten(table: Table)
    ensures Written(table, []) == table
  {
    assert CoalescedRows([]) == [];
  }

  lemma {:induction false} StepKeepsLive(s: State, start: nat, step: Step)
    requires LiveInv(s, start) && Enabled(s, step) && ReplayPointKnown(s, step)
    ensures LiveInv(After(s, step), start)
  {
    if step.Commit? && s.pending == [] {
      NothingWritten(s.table);
      assert s.pending[..step.n] == [];
    }
  }

  // ----- whole runs -----

  ghost predicate Run(states: seq<State>, steps: seq<Step>) {
    && |states| == |steps| + 1
    && forall i :: 0 <= i < |steps| ==> Enabled(states[i], steps[i]) && states[i + 1] == After(states[i], steps[i])
  }

  ghost predicate SafeRun(states: seq<State>, steps: seq<Step>, start: nat) {
    && Run(states, steps) && Init(states[0], start)
    && forall i :: 0 <= i < |steps| ==> ReplayPointKnown(states[i], steps[i])
  }

  lemma {:induction false} SafeRunKeepsInv(states: seq<State>, steps: seq<Step>, start: nat, i: nat)
    requires SafeRun(states, steps, start) && i < |states|
    ensures Inv(states[i], From(start)) && LiveInv(states[i], start)
  {
    if i == 0 {
      InitHolds(states[0], start);
    } else {
      SafeRunKeepsInv(states, steps, start, i - 1);
      StepKeepsInv(states[i - 1], From(start), steps[i - 1]);
      StepKeepsLive(states[i - 1], start, steps[i - 1]);
    }
  }

  // ----- the machine's stream is the stream loop -----

  /** The messages that deliver the ledger from `from` up to `upto`. */
  function Delivered(ledger: seq<LedgerTx>, from: nat, upto: nat): seq<Message>
    requires upto <= |ledger|
  {
    if upto <= from then [] else Delivered(ledger, from, upto - 1) + [Transaction(ledger[upto - 1].slot, true)]
  }

  lemma {:induction false} DeliveredGrows(ledger: seq<LedgerTx>, tx: LedgerTx, from: nat, upto: nat)
    requires upto <= |ledger|
    ensures Delivered(ledger + [tx], from, upto) == Delivered(ledger, from, upto)
  {
    if from < upto {
      DeliveredGrows(ledger, tx, from, upto - 1);
    }
  }

  lemma {:induction false} NoErrors(ledger: seq<LedgerTx>, from: nat, upto: nat, more: seq<Message>)
    requires upto <= |ledger|
    ensures ReadPart(Delivered(ledger, from, upto) + more) == Delivered(ledger, from, upto) + ReadPart(more)
    decreases upto
  {
    if upto <= from {
      assert Delivered(ledger, from, upto) + more == more;
    } else {
      var last := [Transaction(ledger[upto - 1].slot, true)];
      NoErrors(ledger, from, upto - 1, last + more);
      assert (last + more)[1..] == more;
      Assoc(Delivered(ledger, from, upto - 1), last, more);
      Assoc(Delivered(ledger, from, upto - 1), last, ReadPart(more));
    }
  }

  lemma {:induction false} HighestIsUnique(a: Option<nat>, b: Option<nat>, read: seq<Message>)
    requires HighestHandled(a, read) && HighestHandled(b, read)
    ensures a == b
  {
    if a.Some? {
      assert Transaction(a.value, true) in read;
    }
    if b.Some? {
      assert Transaction(b.value, true) in read;
    }
  }

  /** One stream: neither opened nor closed on the way. */
  ghost predicate StreamRun(states: seq<State>, steps: seq<Step>, cursor: nat) {
    && Run(states, steps) && states[0].stream == Up(cursor, None, None) && cursor <= |states[0].ledger|
    && forall i :: 0 <= i < |steps| ==> !steps[i].Connect? && !steps[i].Disconnect? && !steps[i].Crash?
  }

  ghost predicate LastReported(s: State, cursor: nat) {
    && s.stream.Up? && cursor <= s.stream.cursor <= |s.ledger|
    && HighestHandled(s.stream.last, Delivered(s.ledger, cursor, s.stream.cursor))
  }

  lemma {:induction false} StepReports(s: State, step: Step, cursor: nat)
    requires LastReported(s, cursor) && Enabled(s, step) && !step.Connect? && !step.Disconnect? && !step.Crash?
    ensures LastReported(After(s, step), cursor)
  {
    if step.Grow? {
      DeliveredGrows(s.ledger, step.tx, cursor, s.stream.cursor);
    } else if step.Finish? {
      HandledPush(s.stream.last, Delivered(s.ledger, cursor, s.stream.cursor),
                  Transaction(s.ledger[s.stream.cursor].slot, true));
    }
  }

  lemma {:induction false} RunReports(states: seq<State>, steps: seq<Step>, cursor: nat, i: nat)
    requires StreamRun(states, steps, cursor) && i < |states|
    ensures LastReported(states[i], cursor)
  {
    if i > 0 {
      RunReports(states, steps, cursor, i - 1);
      StepReports(states[i - 1], steps[i - 1], cursor);
    }
  }

  /** The highest slot the machine keeps is what the stream loop reports for the messages
      delivered since the stream was opened, so disconnecting resumes where the loop says. */
  lemma {:induction false} StreamLoopReportsLast(states: seq<State>, steps: seq<Step>, cursor: nat, i: nat,
                                                 end: StreamEnd)
    requires StreamRun(states, steps, cursor) && i < |states|
    requires states[i].stream.Up? && states[i].stream.cursor <= |states[i].ledger|
    requires var read := ReadPart(Delivered(states[i].ledger, cursor, states[i].stream.cursor));
             HighestHandled(end.lastProcessed, read) && (end.replayUnavailable <==> StreamError(true) in read)
    ensures end == StreamEnd(states[i].stream.last, false)
    ensures Enabled(states[i], Disconnect) ==>
              After(states[i], Disconnect).fromSlot == NextFromSlot(states[i].fromSlot, Ended(end))
  {
    var s := states[i];
    var delivered := Delivered(s.ledger, cursor, s.stream.cursor);
    RunReports(states, steps, cursor, i);
    NoErrors(s.ledger, cursor, s.stream.cursor, []);
    assert delivered + [] == delivered;
    HighestIsUnique(end.lastProcessed, s.stream.last, delivered);
    OnlyTransactions(s.ledger, cursor, s.stream.cursor);
  }

  lemma {:induction false} OnlyTransactions(ledger: seq<LedgerTx>, from: nat, upto: nat)
    requires upto <= |ledger|
    ensures forall m :: m in Delivered(ledger, from, upto) ==> m.Transaction?
  {
    if from < upto {
      OnlyTransactions(ledger, from, upto - 1);
    }
  }

  /** Whenever a safe run connects, everything in scope before the point where delivery resumes
      is already stored or on its way: the resume slot skips nothing. */
  lemma {:induction false} ResumeSkipsNothing(states: seq<State>, steps: seq<Step>, start: nat, i: nat)
    requires SafeRun(states, steps, start) && i < |steps| && steps[i].Connect?
    ensures NothingSkipped(states[i + 1], From(start))
  {
    SafeRunKeepsInv(states, steps, start, i + 1);
  }

  /** In every state of a safe run, all trades in scope below the highest committed slot are
      committed; the 32-slot margin of a restart is not even needed. */
  lemma {:induction false} BelowCheckpointCommitted(states: seq<State>, steps: seq<Step>, start: nat, i: nat, k: nat,
                                                    t: Trade)
    requires SafeRun(states, steps, start) && i < |states|
    requires start <= k < |states[i].ledger| && t in states[i].ledger[k].trades
    requires MaxSlot(states[i].table).Some? && t.slot < MaxSlot(states[i].table).value
    ensures Stored(states[i].table, t)
  {
    SafeRunKeepsCheckpoint(states, steps, start, i);
    BelowHighestStored(states[i], From(start), k, t);
  }

  lemma {:induction false} SafeRunKeepsCheckpoint(states: seq<State>, steps: seq<Step>, start: nat, i: nat)
    requires SafeRun(states, steps, start) && i < |states|
    ensures GoodLedger(states[i].ledger) && CheckpointInv(states[i], From(start))
  {
    SafeRunKeepsInv(states, steps, start, i);
  }

  lemma {:induction false} BelowHighestStored(s: State, scope: iset<nat>, k: nat, t: Trade)
    requires GoodLedger(s.ledger) && CheckpointInv(s, scope) && s.table != map[] && k in scope && k < |s.ledger|
    requires t in s.ledger[k].trades && t.slot < MaxSlot(s.table).value
    ensures Stored(s.table, t)
  {
    var key :| key in s.table && s.table[key].slot == MaxSlot(s.table).value;
    assert CoveredBelow(s, scope, s.table[key].slot, []);
    assert AllAccounted(s.table, [], s.ledger[k].trades);
  }

  /** All trades in scope, as one uninterrupted delivery at time `now`. */
  function Delivery(ledger: seq<LedgerTx>, start: nat, now: int): seq<TradeRow>
    decreases |ledger| - start
  {
    if start >= |ledger| then [] else RowsAt(ledger[start].trades, now) + Delivery(ledger, start + 1, now)
  }

  lemma {:induction false} DeliveryHolds(ledger: seq<LedgerTx>, start: nat, now: int, r: TradeRow)
    requires r in Delivery(ledger, start, now)
    ensures exists i :: start <= i < |ledger| && TradeOf(r) in ledger[i].trades
    decreases |ledger| - start
  {
    var own := RowsAt(ledger[start].trades, now);
    if r in own {
      var j :| 0 <= j < |own| && own[j] == r;
      assert TradeOf(r) == ledger[start].trades[j];
    } else {
      DeliveryHolds(ledger, start + 1, now, r);
    }
  }

  /** The table agrees on every overwritten column with the table of an uninterrupted delivery of
      everything in scope; anything else in it is a genuine trade replayed from before. */
  ghost predicate AsUninterrupted(s: State, start: nat, now: int) {
    var uninterrupted := UpsertAll(map[], Delivery(s.ledger, start, now));
    && (forall k :: k in uninterrupted ==> k in s.table && TradeOf(s.table[k]) == TradeOf(uninterrupted[k]))
    && (forall k :: k in s.table ==> OnLedger(s.ledger, TradeOf(s.table[k])))
  }

  ghost predicate CaughtUp(s: State) {
    s.stream.Up? && s.stream.cursor == |s.ledger| && s.pending == []
  }

  lemma {:induction false} CaughtUpTable(s: State, start: nat, now: int)
    requires TableGenuine(s) && StreamInv(s, From(start)) && CaughtUp(s)
    ensures AsUninterrupted(s, start, now)
  {
    var rows := Delivery(s.ledger, start, now);
    var uninterrupted := UpsertAll(map[], rows);
    forall k | k in uninterrupted ensures k in s.table && TradeOf(s.table[k]) == TradeOf(uninterrupted[k]) {
      UpsertAllAt(map[], rows, k);
      LastRowHasKey(rows, k);
      var r := LastRow(rows, k);
      DeliveryHolds(s.ledger, start, now, r);
      var j :| start <= j < |s.ledger| && TradeOf(r) in s.ledger[j].trades;
      assert AllAccounted(s.table, s.pending, s.ledger[j].trades);
    }
  }

  /** Once a safe run has caught up and committed, whatever disconnects and crashes it went
      through, its table is that of an uninterrupted run. */
  lemma {:induction false} CaughtUpEqualsUninterrupted(states: seq<State>, steps: seq<Step>, start: nat, i: nat,
                                                       now: int)
    requires SafeRun(states, steps, start) && i < |states| && CaughtUp(states[i])
    ensures AsUninterrupted(states[i], start, now)
  {
    SafeRunKeepsInv(states, steps, start, i);
    CaughtUpTable(states[i], start, now);
  }

  // ----- the guard is needed -----

  /** A connection skips nothing exactly when it has a replay point, or there was nothing to
      record: a live stream that ended before it handled anything is resumed live. */
  lemma {:induction false} ConnectIsSafeIff(s: State, start: nat)
    requires Inv(s, From(start)) && LiveInv(s, start) && Enabled(s, Connect)
    ensures NothingSkipped(After(s, Connect), From(start))
       <==> s.fromSlot.Some? || forall k :: start <= k < |s.ledger| ==> s.ledger[k].trades == []
  {
    if s.fromSlot.Some? {
      ConnectKeepsInv(s, From(start));
    } else {
      forall k | start <= k < |s.ledger| {
        NothingStored(s.ledger[k].trades);
      }
    }
  }

  /** A crash followed by a reconnect skips nothing exactly when something was committed before
      the crash, or there was nothing to record: with an empty table the restarted process
      finds no replay point and resumes live. */
  lemma {:induction false} CrashIsSafeIff(s: State, start: nat)
    requires Inv(s, From(start))
    ensures NothingSkipped(After(After(s, Crash), Connect), From(start))
       <==> s.table != map[] || forall k :: start <= k < |s.ledger| ==> s.ledger[k].trades == []
  {
    if s.table != map[] {
      CrashAfterCommit(s, From(start));
    } else {
      CrashBeforeCommit(s, start);
    }
  }

  lemma {:induction false} CrashAfterCommit(s: State, scope: iset<nat>)
    requires Inv(s, scope) && s.table != map[]
    ensures NothingSkipped(After(After(s, Crash), Connect), scope)
  {
    CrashKeepsInv(s, scope);
    ConnectSkipsNothing(After(s, Crash), scope);
  }

  lemma {:induction false} CrashBeforeCommit(s: State, start: nat)
    requires s.table == map[]
    ensures NothingSkipped(After(After(s, Crash), Connect), From(start))
       <==> forall k :: start <= k < |s.ledger| ==> s.ledger[k].trades == []
  {
    var s' := After(After(s, Crash), Connect);
    assert s'.stream.cursor == |s.ledger| && s'.pending == [];
    forall k | start <= k < |s.ledger|
      ensures k in From(start)
      ensures AllAccounted(s'.table, s'.pending, s'.ledger[k].trades) <==> s.ledger[k].trades == []
    {
      NothingStored(s.ledger[k].trades);
    }
    assert forall k :: k in From(start) ==> start <= k;
  }

  lemma {:induction false} NothingStored(trades: seq<Trade>)
    ensures AllAccounted(map[], [], trades) <==> trades == []
  {
    if trades != [] {
      assert trades[0] in trades;
      assert !Accounted(map[], [], trades[0]);
    }
  }

  /** A failed chunk breaks the checkpoint: if the first chunk of a flush fails and the second,
      more than the margin ahead, commits, a crash restarts behind rows that were never stored. */
  lemma {:induction false} FailedChunkThenCrashLoses(pending: seq<TradeRow>, fails: nat -> bool, early: nat, late: nat)
    requires |pending| == 2 * CHUNK && fails(0) && !fails(CHUNK) && late > early + 32
    requires forall i :: 0 <= i < CHUNK ==> pending[i].slot == early && !Mentions(pending[CHUNK..], pending[i].key)
    requires forall i :: CHUNK <= i < 2 * CHUNK ==> pending[i].slot == late
    ensures var table := WrittenAll(map[], Committed(pending, fails, 0));
            && RestartSlot(table).Some? && RestartSlot(table).value > early
            && forall i :: 0 <= i < CHUNK ==> pending[i].key !in table
  {
    LaterChunkCommitsFirst(pending, fails);
    var batch := pending[CHUNK..];
    WrittenOne(map[], batch);
    FreshTable(batch, late);
    forall i | 0 <= i < CHUNK ensures pending[i].key !in Written(map[], batch) {
      FreshKey(batch, pending[i].key);
    }
  }

  lemma {:induction false} FreshKey(batch: seq<TradeRow>, k: RowKey)
    ensures k in Written(map[], batch) <==> Mentions(batch, k)
  {
    BatchEqualsRowByRow(map[], batch, CoalescedRows(batch));
    UpsertAllAt(map[], batch, k);
  }

  lemma {:induction false} FreshTable(batch: seq<TradeRow>, slot: nat)
    requires batch != [] && forall i :: 0 <= i < |batch| ==> batch[i].slot == slot
    ensures MaxSlot(Written(map[], batch)) == Some(slot)
  {
    var table := Written(map[], batch);
    assert batch[0] in batch;
    FreshKey(batch, batch[0].key);
    forall k | k in table ensures table[k].slot == slot {
      WrittenFrom(map[], batch, k);
    }
  }
}
