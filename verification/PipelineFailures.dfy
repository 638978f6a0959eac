/** The pipeline when statements fail: a failed chunk stays in the buffer while later chunks are
    committed. What reconnecting and crashing then lose, over whole runs. */
module PipelineFailures {
  import opened Prelude
  import opened TradeStore
  import opened BatchInserter
  import opened GrpcConnection
  import opened Pipeline

  /** A step of the machine, or a statement over any chunk of the waiting rows: the rows of
      failed chunks stay in front of it. */
  datatype Move = Machine(step: Step) | CommitAt(at: nat, n: nat)

  ghost predicate CanMove(s: State, move: Move) {
    match move
    case Machine(step) => !step.Commit? && Enabled(s, step)
    case CommitAt(at, n) => n <= CHUNK && at + n <= |s.pending|
  }

  ghost function Moved(s: State, move: Move): State
    requires CanMove(s, move)
  {
    match move
    case Machine(step) => After(s, step)
    case CommitAt(at, n) =>
      s.(table := Written(s.table, s.pending[at..at + n]), pending := s.pending[..at] + s.pending[at + n..])
  }

  // ----- a flush with failing chunks is a run of such statements -----

  /** A flush of `buffer` has come to `at`, with `kept` retained; `channel` waits behind it. */
  ghost predicate FlushAt(s: State, kept: seq<TradeRow>, buffer: seq<TradeRow>, channel: seq<TradeRow>, at: nat) {
    at <= |buffer| && s.pending == kept + (buffer[at..] + channel)
  }

  lemma {:induction false} NextAfterFailure(s: State, kept: seq<TradeRow>, buffer: seq<TradeRow>,
                                            channel: seq<TradeRow>, at: nat)
    requires FlushAt(s, kept, buffer, channel, at) && at < |buffer|
    ensures FlushAt(s, kept + ChunkAt(buffer, at), buffer, channel, ChunkEnd(|buffer|, at))
  {
    var end := ChunkEnd(|buffer|, at);
    assert buffer[at..] == ChunkAt(buffer, at) + buffer[end..];
    Assoc(ChunkAt(buffer, at), buffer[end..], channel);
    Assoc(kept, ChunkAt(buffer, at), buffer[end..] + channel);
  }

  /** The statement over the next chunk. */
  ghost function ChunkMove(kept: seq<TradeRow>, buffer: seq<TradeRow>, at: nat): Move
    requires at < |buffer|
  {
    CommitAt(|kept|, |ChunkAt(buffer, at)|)
  }

  lemma {:induction false} NextAfterSuccess(s: State, kept: seq<TradeRow>, buffer: seq<TradeRow>,
                                            channel: seq<TradeRow>, at: nat)
    requires FlushAt(s, kept, buffer, channel, at) && at < |buffer|
    ensures CanMove(s, ChunkMove(kept, buffer, at))
    ensures Moved(s, ChunkMove(kept, buffer, at))
         == s.(table := Written(s.table, ChunkAt(buffer, at)),
               pending := kept + (buffer[ChunkEnd(|buffer|, at)..] + channel))
  {
    var chunk, rest := ChunkAt(buffer, at), buffer[ChunkEnd(|buffer|, at)..] + channel;
    ChunkSplit(buffer, at);
    Assoc(chunk, buffer[ChunkEnd(|buffer|, at)..], channel);
    ChunkInMiddle(s.pending, kept, chunk, rest);
  }

  lemma {:induction false} ChunkInMiddle(rows: seq<TradeRow>, kept: seq<TradeRow>, chunk: seq<TradeRow>,
                                         rest: seq<TradeRow>)
    requires rows == kept + (chunk + rest)
    ensures rows[|kept|..|kept| + |chunk|] == chunk
    ensures rows[..|kept|] + rows[|kept| + |chunk|..] == kept + rest
  {
    assert rows[..|kept|] == kept && rows[|kept| + |chunk|..] == rest;
  }

  /** The flush as a run of statements; `fails` is asked per chunk start. */
  ghost function FlushMoves(s: State, kept: seq<TradeRow>, buffer: seq<TradeRow>, channel: seq<TradeRow>,
                            fails: nat -> bool, at: nat): State
    requires FlushAt(s, kept, buffer, channel, at)
    decreases |buffer| - at
  {
    if at == |buffer| then s
    else
      var end := ChunkEnd(|buffer|, at);
      if fails(at) then
        NextAfterFailure(s, kept, buffer, channel, at);
        FlushMoves(s, kept + ChunkAt(buffer, at), buffer, channel, fails, end)
      else
        NextAfterSuccess(s, kept, buffer, channel, at);
        FlushMoves(Moved(s, ChunkMove(kept, buffer, at)), kept, buffer, channel, fails, end)
  }

  /** What the inserter's flush leaves. */
  ghost function FlushedState(s: State, kept: seq<TradeRow>, buffer: seq<TradeRow>, channel: seq<TradeRow>,
                              fails: nat -> bool, at: nat): State {
    s.(table := WrittenAll(s.table, Committed(buffer, fails, at)),
       pending := kept + (Retained(buffer, fails, at) + channel))
  }

  /** A flush does to table and buffer what those statements do. */
  lemma {:induction false} FlushIsMoves(s: State, kept: seq<TradeRow>, buffer: seq<TradeRow>, channel: seq<TradeRow>,
                                        fails: nat -> bool, at: nat)
    requires FlushAt(s, kept, buffer, channel, at)
    ensures FlushMoves(s, kept, buffer, channel, fails, at) == FlushedState(s, kept, buffer, channel, fails, at)
    decreases |buffer| - at
  {
    if at == |buffer| {
      assert buffer[at..] == [];
    } else {
      var end := ChunkEnd(|buffer|, at);
      if fails(at) {
        NextAfterFailure(s, kept, buffer, channel, at);
        FlushIsMoves(s, kept + ChunkAt(buffer, at), buffer, channel, fails, end);
        RetainedAtFailure(kept, buffer, channel, fails, at);
      } else {
        NextAfterSuccess(s, kept, buffer, channel, at);
        FlushIsMoves(Moved(s, ChunkMove(kept, buffer, at)), kept, buffer, channel, fails, end);
        CommittedAtSuccess(s.table, buffer, fails, at);
      }
    }
  }

  lemma {:induction false} RetainedAtFailure(kept: seq<TradeRow>, buffer: seq<TradeRow>, channel: seq<TradeRow>,
                                             fails: nat -> bool, at: nat)
    requires at < |buffer| && fails(at)
    ensures var end := ChunkEnd(|buffer|, at);
            && kept + (Retained(buffer, fails, at) + channel)
               == (kept + ChunkAt(buffer, at)) + (Retained(buffer, fails, end) + channel)
            && Committed(buffer, fails, at) == Committed(buffer, fails, end)
  {
    var rest := Retained(buffer, fails, ChunkEnd(|buffer|, at));
    assert Committed(buffer, fails, at) == [] + Committed(buffer, fails, ChunkEnd(|buffer|, at));
    Assoc(ChunkAt(buffer, at), rest, channel);
    Assoc(kept, ChunkAt(buffer, at), rest + channel);
  }

  lemma {:induction false} CommittedAtSuccess(table: Table, buffer: seq<TradeRow>, fails: nat -> bool, at: nat)
    requires at < |buffer| && !fails(at)
    ensures var end := ChunkEnd(|buffer|, at);
            && WrittenAll(table, Committed(buffer, fails, at))
               == WrittenAll(Written(table, ChunkAt(buffer, at)), Committed(buffer, fails, end))
            && Retained(buffer, fails, at) == Retained(buffer, fails, end)
  {
    var rest := Committed(buffer, fails, ChunkEnd(|buffer|, at));
    assert Retained(buffer, fails, at) == [] + Retained(buffer, fails, ChunkEnd(|buffer|, at));
    WrittenOne(table, ChunkAt(buffer, at));
    WrittenAllAppend(table, [ChunkAt(buffer, at)], rest);
  }

  // ----- the invariant that failures leave -----

  /** Everything in scope below a waiting row, and below the restart point, was handled: it is
      stored or still waiting, in whatever order. */
  ghost predicate SeenInv(s: State, scope: iset<nat>) {
    && (forall p :: 0 <= p < |s.pending| ==> CoveredBelow(s, scope, s.pending[p].slot, s.pending))
    && (s.table != map[] ==> CoveredBelow(s, scope, RestartSlot(s.table).value, s.pending))
  }

  ghost predicate LooseInv(s: State, scope: iset<nat>) {
    && GoodLedger(s.ledger) && TableGenuine(s) && Genuine(s.ledger, s.pending)
    && StreamInv(s, scope) && ResumeInv(s, scope) && SeenInv(s, scope)
  }

  lemma {:induction false} CoveredByMore(s: State, scope: iset<nat>, slot: nat, some: seq<TradeRow>, all: seq<TradeRow>)
    requires CoveredBelow(s, scope, slot, some) && forall t :: Holds(some, t) ==> Holds(all, t)
    ensures CoveredBelow(s, scope, slot, all)
  {
    forall i | i in scope && i < |s.ledger| && s.ledger[i].slot < slot
      ensures AllAccounted(s.table, all, s.ledger[i].trades)
    {
      assert AllAccounted(s.table, some, s.ledger[i].trades);
    }
  }

  /** Without failures the invariant is the stronger one. */
  lemma {:induction false} InvIsLoose(s: State, scope: iset<nat>)
    requires Inv(s, scope)
    ensures LooseInv(s, scope)
  {
    forall p | 0 <= p < |s.pending| ensures CoveredBelow(s, scope, s.pending[p].slot, s.pending) {
      forall t | Holds(s.pending[..p], t) ensures Holds(s.pending, t) {
        HoldsPrefix(s.pending, p, |s.pending|, t);
        assert s.pending[..|s.pending|] == s.pending;
      }
      CoveredByMore(s, scope, s.pending[p].slot, s.pending[..p], s.pending);
    }
    if s.table != map[] {
      RestartBelowTip(s);
      var k :| k in s.table && s.table[k].slot == MaxSlot(s.table).value;
      assert CoveredBelow(s, scope, s.table[k].slot, []);
      CoveredByMore(s, scope, s.table[k].slot, [], s.pending);
    }
  }

  // ----- every move keeps it -----

  /** The stream and the resume slot do not matter to the rows that wait. */
  lemma {:induction false} StreamMoves(s: State, s': State, scope: iset<nat>)
    requires LooseInv(s, scope) && s' == s.(stream := s'.stream, fromSlot := s'.fromSlot)
    requires StreamInv(s', scope) && ResumeInv(s', scope)
    ensures LooseInv(s', scope)
  {
  }

  lemma {:induction false} GrowKeepsLoose(s: State, scope: iset<nat>, tx: LedgerTx)
    requires LooseInv(s, scope) && Enabled(s, Grow(tx))
    ensures LooseInv(After(s, Grow(tx)), scope)
  {
    GrowKeepsStream(s, scope, tx);
    GrowKeepsGenuine(s, tx);
    forall p | 0 <= p < |s.pending| {
      GrowKeepsCovered(s, scope, tx, s.pending[p].slot, s.pending);
    }
    if s.table != map[] {
      RestartBelowTip(s);
      GrowKeepsCovered(s, scope, tx, RestartSlot(s.table).value, s.pending);
    }
  }

  lemma {:induction false} BeginKeepsLoose(s: State, scope: iset<nat>, now: int)
    requires LooseInv(s, scope) && Enabled(s, Begin(now))
    ensures LooseInv(After(s, Begin(now)), scope)
  {
    BeginKeepsStream(s, scope, now);
    StreamMoves(s, After(s, Begin(now)), scope);
  }

  lemma {:induction false} SendKeepsSeen(s: State, scope: iset<nat>)
    requires LooseInv(s, scope) && Enabled(s, Send)
    ensures SeenInv(After(s, Send), scope)
  {
    var s' := After(s, Send);
    var row := s.stream.sending.value[0];
    assert row in s.stream.sending.value;
    forall t | Holds(s.pending, t) ensures Holds(s'.pending, t) {
      var p :| 0 <= p < |s.pending| && TradeOf(s.pending[p]) == t;
      assert s'.pending[p] == s.pending[p];
    }
    forall p | 0 <= p < |s'.pending| ensures CoveredBelow(s', scope, s'.pending[p].slot, s'.pending) {
      if p < |s.pending| {
        assert s'.pending[p] == s.pending[p];
        CoveredByMore(s, scope, s.pending[p].slot, s.pending, s'.pending);
      } else {
        forall i | i in scope && i < |s.ledger| && s.ledger[i].slot < row.slot
          ensures AllAccounted(s.table, s.pending, s.ledger[i].trades)
        {
          assert i < s.stream.cursor;
        }
      }
    }
    if s.table != map[] {
      CoveredByMore(s, scope, RestartSlot(s.table).value, s.pending, s'.pending);
    }
  }

  lemma {:induction false} SendKeepsLoose(s: State, scope: iset<nat>)
    requires LooseInv(s, scope) && Enabled(s, Send)
    ensures LooseInv(After(s, Send), scope)
  {
    SendKeepsStream(s, scope);
    SendKeepsSeen(s, scope);
  }

  lemma {:induction false} FinishKeepsLoose(s: State, scope: iset<nat>)
    requires LooseInv(s, scope) && Enabled(s, Finish)
    ensures LooseInv(After(s, Finish), scope)
  {
    FinishKeepsStream(s, scope);
    StreamMoves(s, After(s, Finish), scope);
  }

  lemma {:induction false} DisconnectKeepsLoose(s: State, scope: iset<nat>)
    requires LooseInv(s, scope) && Enabled(s, Disconnect)
    ensures LooseInv(After(s, Disconnect), scope)
  {
    DisconnectKeepsResume(s, scope);
    StreamMoves(s, After(s, Disconnect), scope);
  }

  lemma {:induction false} HeldOnEitherSide(rows: seq<TradeRow>, at: nat, n: nat, more: seq<TradeRow>, t: Trade)
    requires at + n <= |rows| && Holds(rows + more, t)
    ensures Holds(rows[at..at + n], t) || Holds(rows[..at] + rows[at + n..] + more, t)
  {
    var all, left := rows + more, rows[..at] + rows[at + n..] + more;
    var p :| 0 <= p < |all| && TradeOf(all[p]) == t;
    if p < at {
      assert left[p] == all[p];
    } else if p < at + n {
      assert rows[at..at + n][p - at] == all[p];
    } else {
      assert left[p - n] == all[p];
    }
  }

  lemma {:induction false} ChunkAccounted(s: State, at: nat, n: nat, more: seq<TradeRow>, t: Trade)
    requires GoodLedger(s.ledger) && Genuine(s.ledger, s.pending) && CanMove(s, CommitAt(at, n))
    requires OnLedger(s.ledger, t)
    requires Accounted(s.table, s.pending + more, t)
    ensures var s' := Moved(s, CommitAt(at, n)); Accounted(s'.table, s'.pending + more, t)
  {
    var chunk := s.pending[at..at + n];
    assert Genuine(s.ledger, chunk);
    WrittenStores(s.ledger, s.table, chunk, t);
    if Holds(s.pending + more, t) {
      HeldOnEitherSide(s.pending, at, n, more, t);
    }
  }

  lemma {:induction false} ChunkKeepsAccounts(s: State, at: nat, n: nat, i: nat, more: seq<TradeRow>)
    requires GoodLedger(s.ledger) && Genuine(s.ledger, s.pending) && CanMove(s, CommitAt(at, n)) && i < |s.ledger|
    requires AllAccounted(s.table, s.pending + more, s.ledger[i].trades)
    ensures var s' := Moved(s, CommitAt(at, n)); AllAccounted(s'.table, s'.pending + more, s.ledger[i].trades)
  {
    var s' := Moved(s, CommitAt(at, n));
    forall t | t in s.ledger[i].trades ensures Accounted(s'.table, s'.pending + more, t) {
      assert OnLedger(s.ledger, t);
      ChunkAccounted(s, at, n, more, t);
    }
  }

  lemma {:induction false} ChunkKeepsCovered(s: State, scope: iset<nat>, at: nat, n: nat, slot: nat)
    requires GoodLedger(s.ledger) && Genuine(s.ledger, s.pending) && CanMove(s, CommitAt(at, n))
    requires CoveredBelow(s, scope, slot, s.pending)
    ensures CoveredBelow(Moved(s, CommitAt(at, n)), scope, slot, Moved(s, CommitAt(at, n)).pending)
  {
    var s' := Moved(s, CommitAt(at, n));
    assert s.pending + [] == s.pending && s'.pending + [] == s'.pending;
    forall i | i in scope && i < |s.ledger| && s.ledger[i].slot < slot
      ensures AllAccounted(s'.table, s'.pending, s.ledger[i].trades)
    {
      ChunkKeepsAccounts(s, at, n, i, []);
    }
  }

  lemma {:induction false} ChunkKeepsStream(s: State, scope: iset<nat>, at: nat, n: nat)
    requires LooseInv(s, scope) && CanMove(s, CommitAt(at, n))
    ensures StreamInv(Moved(s, CommitAt(at, n)), scope) && ResumeInv(Moved(s, CommitAt(at, n)), scope)
  {
    var s' := Moved(s, CommitAt(at, n));
    assert s.pending + [] == s.pending && s'.pending + [] == s'.pending;
    if s.fromSlot.Some? {
      ChunkKeepsCovered(s, scope, at, n, s.fromSlot.value);
    }
    if s.stream.Up? {
      forall i | i in scope && i < s.stream.cursor {
        ChunkKeepsAccounts(s, at, n, i, []);
      }
      if s.stream.sending.Some? {
        ChunkKeepsAccounts(s, at, n, s.stream.cursor, s.stream.sending.value);
      }
    }
  }

  lemma {:induction false} WrittenGenuine(ledger: seq<LedgerTx>, table: Table, rows: seq<TradeRow>, k: RowKey)
    requires Genuine(ledger, rows) && k in Written(table, rows)
    requires k in table ==> table[k].key == k && OnLedger(ledger, TradeOf(table[k]))
    ensures Written(table, rows)[k].key == k && OnLedger(ledger, TradeOf(Written(table, rows)[k]))
  {
    WrittenFrom(table, rows, k);
  }

  lemma {:induction false} ChunkKeepsGenuine(s: State, at: nat, n: nat)
    requires TableGenuine(s) && Genuine(s.ledger, s.pending) && CanMove(s, CommitAt(at, n))
    ensures TableGenuine(Moved(s, CommitAt(at, n))) && Genuine(s.ledger, Moved(s, CommitAt(at, n)).pending)
  {
    var s', chunk := Moved(s, CommitAt(at, n)), s.pending[at..at + n];
    assert Genuine(s.ledger, chunk);
    forall k | k in s'.table ensures s'.table[k].key == k && OnLedger(s.ledger, TradeOf(s'.table[k])) {
      WrittenGenuine(s.ledger, s.table, chunk, k);
    }
  }

  lemma {:induction false} RestartNotAbove(table: Table, slot: nat, other: Table)
    requires MaxSlot(table) == Some(slot) && MaxSlot(other).Some? && slot <= MaxSlot(other).value
    ensures RestartSlot(table).value <= RestartSlot(other).value && RestartSlot(table).value <= slot
  {
  }

  /** Every slot of the new table comes from the old table or from a waiting row. */
  lemma {:induction false} SlotFrom(s: State, at: nat, n: nat, k: RowKey)
    requires CanMove(s, CommitAt(at, n)) && k in Moved(s, CommitAt(at, n)).table
    ensures var slot := Moved(s, CommitAt(at, n)).table[k].slot;
            || (k in s.table && s.table[k].slot == slot)
            || (exists p :: 0 <= p < |s.pending| && s.pending[p].slot == slot)
  {
    var chunk := s.pending[at..at + n];
    WrittenFrom(s.table, chunk, k);
    assert forall p :: 0 <= p < |chunk| ==> s.pending[at + p] == chunk[p];
  }

  /** The restart point moves only to below a slot whose predecessors were handled. */
  lemma {:induction false} ChunkKeepsRestart(s: State, scope: iset<nat>, at: nat, n: nat)
    requires SeenInv(s, scope) && CanMove(s, CommitAt(at, n)) && Moved(s, CommitAt(at, n)).table != map[]
    ensures CoveredBelow(s, scope, RestartSlot(Moved(s, CommitAt(at, n)).table).value, s.pending)
  {
    var table := Moved(s, CommitAt(at, n)).table;
    var highest := MaxSlot(table).value;
    var k :| k in table && table[k].slot == highest;
    SlotFrom(s, at, n, k);
    if k in s.table && s.table[k].slot == highest {
      RestartNotAbove(table, highest, s.table);
    } else {
      var p :| 0 <= p < |s.pending| && s.pending[p].slot == highest;
      RestartNotAbove(table, highest, table);
      assert CoveredBelow(s, scope, s.pending[p].slot, s.pending);
    }
  }

  lemma {:induction false} ChunkKeepsSeen(s: State, scope: iset<nat>, at: nat, n: nat)
    requires LooseInv(s, scope) && CanMove(s, CommitAt(at, n))
    ensures SeenInv(Moved(s, CommitAt(at, n)), scope)
  {
    var s' := Moved(s, CommitAt(at, n));
    forall p | 0 <= p < |s'.pending| ensures CoveredBelow(s', scope, s'.pending[p].slot, s'.pending) {
      var q := if p < at then p else p + n;
      assert s'.pending[p] == s.pending[q];
      ChunkKeepsCovered(s, scope, at, n, s.pending[q].slot);
    }
    if s'.table != map[] {
      ChunkKeepsRestart(s, scope, at, n);
      ChunkKeepsCovered(s, scope, at, n, RestartSlot(s'.table).value);
    }
  }

  lemma {:induction false} ChunkKeepsLoose(s: State, scope: iset<nat>, at: nat, n: nat)
    requires LooseInv(s, scope) && CanMove(s, CommitAt(at, n))
    ensures LooseInv(Moved(s, CommitAt(at, n)), scope)
  {
    ChunkKeepsStream(s, scope, at, n);
    ChunkKeepsGenuine(s, at, n);
    ChunkKeepsSeen(s, scope, at, n);
  }

  // ----- crashing -----

  ghost predicate InScope(s: State, scope: iset<nat>, t: Trade) {
    exists i :: i in scope && i < |s.ledger| && t in s.ledger[i].trades
  }

  /** Something is committed, and every waiting row in scope below the restart point is stored. */
  ghost predicate CrashIsSafe(s: State, scope: iset<nat>) {
    && s.table != map[]
    && forall r :: r in s.pending && InScope(s, scope, TradeOf(r)) && r.slot < RestartSlot(s.table).value ==>
         Stored(s.table, TradeOf(r))
  }

  lemma {:induction false} SafeCrashCovers(s: State, scope: iset<nat>)
    requires LooseInv(s, scope) && CrashIsSafe(s, scope)
    ensures CoveredBelow(s, scope, RestartSlot(s.table).value, [])
  {
    var restart := RestartSlot(s.table).value;
    forall i, t | i in scope && i < |s.ledger| && s.ledger[i].slot < restart && t in s.ledger[i].trades
      ensures Accounted(s.table, [], t)
    {
      assert AllAccounted(s.table, s.pending, s.ledger[i].trades);
      if !Stored(s.table, t) {
        var p :| 0 <= p < |s.pending| && TradeOf(s.pending[p]) == t;
        assert s.pending[p] in s.pending && InScope(s, scope, t);
      }
    }
  }

  lemma {:induction false} CrashKeepsResumeLoose(s: State, scope: iset<nat>)
    requires LooseInv(s, scope) && CrashIsSafe(s, scope)
    ensures ResumeInv(After(s, Crash), scope)
    ensures CoveredBelow(After(s, Crash), scope, RestartSlot(s.table).value, [])
  {
    var restart := RestartSlot(s.table).value;
    SafeCrashCovers(s, scope);
    RestartBelowTip(s);
    CoveredLower(s, After(s, Crash), scope, restart, restart, []);
  }

  lemma {:induction false} CrashKeepsLoose(s: State, scope: iset<nat>)
    requires LooseInv(s, scope) && CrashIsSafe(s, scope)
    ensures LooseInv(After(s, Crash), scope)
  {
    CrashKeepsResumeLoose(s, scope);
    DownIsLoose(After(s, Crash), scope);
  }

  /** The invariant of a process that just started. */
  lemma {:induction false} DownIsLoose(s: State, scope: iset<nat>)
    requires GoodLedger(s.ledger) && TableGenuine(s) && s.pending == [] && s.stream.Down? && ResumeInv(s, scope)
    requires s.table != map[] ==> CoveredBelow(s, scope, RestartSlot(s.table).value, [])
    ensures LooseInv(s, scope)
  {
  }

  lemma {:induction false} ConnectKeepsLoose(s: State, scope: iset<nat>)
    requires LooseInv(s, scope) && Enabled(s, Connect) && s.fromSlot.Some?
    ensures LooseInv(After(s, Connect), scope) && NothingSkipped(After(s, Connect), scope)
  {
    ConnectSkipsNothing(s, scope);
    StreamMoves(s, After(s, Connect), scope);
  }

  /** After a restart that skips nothing, every waiting row it replays past was stored. */
  lemma {:induction false} SafeOnlyIf(s: State, scope: iset<nat>, r: TradeRow)
    requires LooseInv(s, scope) && s.table != map[] && NothingSkipped(After(After(s, Crash), Connect), scope)
    requires InScope(s, scope, TradeOf(r)) && r.slot < RestartSlot(s.table).value
    ensures Stored(s.table, TradeOf(r))
  {
    var s' := After(After(s, Crash), Connect);
    var i :| i in scope && i < |s.ledger| && TradeOf(r) in s.ledger[i].trades;
    assert s.ledger[i].slot == r.slot;
    PassedBelow(s.ledger, RestartSlot(s.table).value, i);
    assert AllAccounted(s'.table, s'.pending, s'.ledger[i].trades);
  }

  lemma {:induction false} PassedBelow(ledger: seq<LedgerTx>, slot: nat, i: nat)
    requires GoodLedger(ledger) && i < |ledger| && ledger[i].slot < slot
    ensures i < FirstAt(ledger, slot)
  {
    var first := FirstAt(ledger, slot);
    assert forall k :: first <= k < |ledger| ==> ledger[first].slot <= ledger[k].slot;
  }

  /** Whatever chunks failed before, a crash followed by a reconnect skips nothing exactly when
      every waiting row in scope below the restart point is stored. */
  lemma {:induction false} CrashAfterFailuresIff(s: State, scope: iset<nat>)
    requires LooseInv(s, scope) && s.table != map[]
    ensures NothingSkipped(After(After(s, Crash), Connect), scope) <==> CrashIsSafe(s, scope)
  {
    if CrashIsSafe(s, scope) {
      CrashKeepsLoose(s, scope);
      ConnectKeepsLoose(After(s, Crash), scope);
    }
    if NothingSkipped(After(After(s, Crash), Connect), scope) {
      forall r | r in s.pending && InScope(s, scope, TradeOf(r)) && r.slot < RestartSlot(s.table).value
        ensures Stored(s.table, TradeOf(r))
      {
        SafeOnlyIf(s, scope, r);
      }
    }
  }

  /** The 32-slot margin of a restart covers failed chunks that are no further behind. */
  lemma {:induction false} MarginCovers(s: State, scope: iset<nat>)
    requires s.table != map[]
    requires forall r :: r in s.pending ==> r.slot + 32 >= MaxSlot(s.table).value
    ensures CrashIsSafe(s, scope)
  {
  }

  // ----- whole runs -----

  /** The guard of a run: connections ask for a replay point, crashes are safe. */
  ghost predicate Guarded(s: State, scope: iset<nat>, move: Move) {
    && (move == Machine(Connect) ==> s.fromSlot.Some?)
    && (move == Machine(Crash) ==> CrashIsSafe(s, scope))
  }

  lemma {:induction false} MoveKeepsLoose(s: State, scope: iset<nat>, move: Move)
    requires LooseInv(s, scope) && CanMove(s, move) && Guarded(s, scope, move)
    ensures LooseInv(Moved(s, move), scope)
  {
    match move {
      case CommitAt(at, n) =>
        ChunkKeepsLoose(s, scope, at, n);
      case Machine(step) =>
        MachineKeepsLoose(s, scope, step);
    }
  }

  lemma {:induction false} MachineKeepsLoose(s: State, scope: iset<nat>, step: Step)
    requires LooseInv(s, scope) && CanMove(s, Machine(step)) && Guarded(s, scope, Machine(step))
    ensures LooseInv(After(s, step), scope)
  {
    match step {
      case Grow(tx) => GrowKeepsLoose(s, scope, tx);
      case Connect => ConnectKeepsLoose(s, scope);
      case Begin(now) => BeginKeepsLoose(s, scope, now);
      case Send => SendKeepsLoose(s, scope);
      case Finish => FinishKeepsLoose(s, scope);
      case Disconnect => DisconnectKeepsLoose(s, scope);
      case Crash => CrashKeepsLoose(s, scope);
    }
  }

  /** Any run of the machine in which statements fail at will. */
  ghost predicate FailingRun(states: seq<State>, moves: seq<Move>, start: nat) {
    && |states| == |moves| + 1 && Init(states[0], start)
    && forall i :: 0 <= i < |moves| ==>
         && CanMove(states[i], moves[i]) && Guarded(states[i], From(start), moves[i])
         && states[i + 1] == Moved(states[i], moves[i])
  }

  lemma {:induction false} FailingRunKeepsLoose(states: seq<State>, moves: seq<Move>, start: nat, i: nat)
    requires FailingRun(states, moves, start) && i < |states|
    ensures LooseInv(states[i], From(start))
  {
    if i == 0 {
      InitHolds(states[0], start);
      InvIsLoose(states[0], From(start));
    } else {
      FailingRunKeepsLoose(states, moves, start, i - 1);
      MoveKeepsLoose(states[i - 1], From(start), moves[i - 1]);
    }
  }

  /** Failed chunks alone never make a reconnection skip anything. */
  lemma {:induction false} ReconnectSkipsNothing(states: seq<State>, moves: seq<Move>, start: nat, i: nat)
    requires FailingRun(states, moves, start) && i < |moves| && moves[i] == Machine(Connect)
    ensures NothingSkipped(states[i + 1], From(start))
  {
    FailingRunKeepsLoose(states, moves, start, i);
    ConnectKeepsLoose(states[i], From(start));
  }

  /** In any state of such a run, a crash and reconnection skip nothing exactly when every waiting
      row in scope below the restart point is stored. */
  lemma {:induction false} CrashInRunIff(states: seq<State>, moves: seq<Move>, start: nat, i: nat)
    requires FailingRun(states, moves, start) && i < |states| && states[i].table != map[]
    ensures NothingSkipped(After(After(states[i], Crash), Connect), From(start))
       <==> CrashIsSafe(states[i], From(start))
  {
    FailingRunKeepsLoose(states, moves, start, i);
    CrashAfterFailuresIff(states[i], From(start));
  }

  /** Once such a run has caught up and every retry was committed, its table is that of an
      uninterrupted run. */
  lemma {:induction false} CaughtUpDespiteFailures(states: seq<State>, moves: seq<Move>, start: nat, i: nat, now: int)
    requires FailingRun(states, moves, start) && i < |states| && CaughtUp(states[i])
    ensures AsUninterrupted(states[i], start, now)
  {
    FailingRunKeepsLoose(states, moves, start, i);
    CaughtUpTable(states[i], start, now);
  }

  /** Without failures every crash after a commit is safe. */
  lemma {:induction false} InvCrashIsSafe(s: State, scope: iset<nat>)
    requires Inv(s, scope) && s.table != map[]
    ensures CrashIsSafe(s, scope)
  {
    RestartBelowTip(s);
    var k :| k in s.table && s.table[k].slot == MaxSlot(s.table).value;
    assert CoveredBelow(s, scope, s.table[k].slot, []);
    forall r | r in s.pending && InScope(s, scope, TradeOf(r)) && r.slot < RestartSlot(s.table).value
      ensures Stored(s.table, TradeOf(r))
    {
      var i :| i in scope && i < |s.ledger| && TradeOf(r) in s.ledger[i].trades;
      assert s.ledger[i].slot == r.slot;
      assert AllAccounted(s.table, [], s.ledger[i].trades);
    }
  }

  lemma {:induction false} FlushKeepsLoose(s: State, scope: iset<nat>, kept: seq<TradeRow>, buffer: seq<TradeRow>,
                                           channel: seq<TradeRow>, fails: nat -> bool, at: nat)
    requires LooseInv(s, scope) && FlushAt(s, kept, buffer, channel, at)
    ensures LooseInv(FlushMoves(s, kept, buffer, channel, fails, at), scope)
    decreases |buffer| - at
  {
    if at < |buffer| {
      var end := ChunkEnd(|buffer|, at);
      if fails(at) {
        NextAfterFailure(s, kept, buffer, channel, at);
        FlushKeepsLoose(s, scope, kept + ChunkAt(buffer, at), buffer, channel, fails, end);
      } else {
        NextAfterSuccess(s, kept, buffer, channel, at);
        ChunkKeepsLoose(s, scope, |kept|, |ChunkAt(buffer, at)|);
        FlushKeepsLoose(Moved(s, ChunkMove(kept, buffer, at)), scope, kept, buffer, channel, fails, end);
      }
    }
  }

  /** From any state reached without failures: flushing `buffer` while some chunks fail, crashing
      and reconnecting skip nothing exactly when every retained or still queued row in scope
      below the new restart point is stored. */
  lemma {:induction false} FailedFlushThenCrashIff(s: State, scope: iset<nat>, buffer: seq<TradeRow>,
                                                   channel: seq<TradeRow>, fails: nat -> bool)
    requires Inv(s, scope) && s.pending == buffer + channel
    requires WrittenAll(s.table, Committed(buffer, fails, 0)) != map[]
    ensures var table := WrittenAll(s.table, Committed(buffer, fails, 0));
            var waiting := Retained(buffer, fails, 0) + channel;
            var flushed := s.(table := table, pending := waiting);
            NothingSkipped(After(After(flushed, Crash), Connect), scope)
            <==> forall r :: r in waiting && InScope(s, scope, TradeOf(r)) && r.slot < RestartSlot(table).value ==>
                   Stored(table, TradeOf(r))
  {
    var kept: seq<TradeRow> := [];
    assert buffer[0..] == buffer && kept + (buffer + channel) == s.pending;
    var waiting := Retained(buffer, fails, 0) + channel;
    assert kept + waiting == waiting;
    InvIsLoose(s, scope);
    FlushKeepsLoose(s, scope, kept, buffer, channel, fails, 0);
    FlushIsMoves(s, kept, buffer, channel, fails, 0);
    var flushed := FlushedState(s, kept, buffer, channel, fails, 0);
    CrashAfterFailuresIff(flushed, scope);
    forall t {
      SameScope(s, flushed, scope, t);
    }
  }

  lemma {:induction false} SameScope(s: State, s': State, scope: iset<nat>, t: Trade)
    requires s.ledger == s'.ledger
    ensures InScope(s, scope, t) <==> InScope(s', scope, t)
  {
  }
}
