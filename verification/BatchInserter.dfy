/** The batch inserter: a buffer, chunked statements, retry of failed chunks
    (src/database/trades.rs). Which statements fail is left to an oracle. */
module BatchInserter {
  import opened Prelude
  import opened TradeStore

  const CHUNK: nat := 500
  /** The wider of the two tables: alt_trades binds 32 parameters per row, amm_trades 22. */
  const MAX_COLUMNS: nat := 32

  // ----- one statement -----

  ghost function CoalescedRows(rows: seq<TradeRow>): (u: seq<TradeRow>)
    ensures IsCoalesced(u, rows)
  {
    var keys := FirstKeys(rows);
    assert forall i :: 0 <= i < |keys| ==> Mentions(rows, keys[i]) by {
      forall i | 0 <= i < |keys| ensures Mentions(rows, keys[i]) {
        FirstKeysAreMentioned(rows, keys[i]);
      }
    }
    seq(|keys|, i requires 0 <= i < |keys| => LastRow(rows, keys[i]))
  }

  /** The table after one successful statement. */
  ghost function Written(t: Table, rows: seq<TradeRow>): Table {
    UpsertAll(t, CoalescedRows(rows))
  }

  ghost function WrittenAll(t: Table, batches: seq<seq<TradeRow>>): Table {
    if batches == [] then t else Written(WrittenAll(t, batches[..|batches| - 1]), batches[|batches| - 1])
  }

  lemma {:induction false} KeysNoMoreThanRows(rows: seq<TradeRow>)
    ensures |FirstKeys(rows)| <= |rows|
  {
    if rows != [] {
      KeysNoMoreThanRows(rows[..|rows| - 1]);
    }
  }

  class Database {
    var table: Table

    constructor ()
      ensures table == map[]
    {
      table := map[];
    }

    /** One INSERT ... ON CONFLICT statement: all rows or none. The caller must keep it under
        the bind-parameter limit. */
    method InsertBatch(rows: seq<TradeRow>, fails: bool) returns (ok: bool)
      requires |rows| * MAX_COLUMNS <= 65_535
      modifies this
      ensures ok <==> rows == [] || !fails
      ensures table == if ok then Written(old(table), rows) else old(table)
    {
      var trades := CoalesceDuplicateRows(rows);
      assert trades == CoalescedRows(rows);
      if rows == [] {
        assert trades == [];
        return true;
      }
      if fails {
        return false;
      }
      var stored := table;
      for i := 0 to |trades|
        invariant stored == UpsertAll(table, trades[..i])
        invariant table == old(table)
      {
        assert trades[..i + 1][..i] == trades[..i];
        stored := Upsert(stored, trades[i]);
      }
      assert trades[..|trades|] == trades;
      table := stored;
      return true;
    }
  }

  // ----- one flush -----

  function ChunkEnd(n: nat, at: nat): (r: nat)
    ensures at < n ==> at < r <= n && r - at <= CHUNK
  {
    if at + CHUNK <= n then at + CHUNK else n
  }

  function ChunkAt(pending: seq<TradeRow>, at: nat): (chunk: seq<TradeRow>)
    requires at < |pending|
    ensures 0 < |chunk| <= CHUNK
  {
    pending[at..ChunkEnd(|pending|, at)]
  }

  function CommittedChunk(pending: seq<TradeRow>, fails: nat -> bool, at: nat): seq<seq<TradeRow>>
    requires at < |pending|
  {
    if fails(at) then [] else [ChunkAt(pending, at)]
  }

  function RetainedChunk(pending: seq<TradeRow>, fails: nat -> bool, at: nat): seq<TradeRow>
    requires at < |pending|
  {
    if fails(at) then ChunkAt(pending, at) else []
  }

  /** Rows of the chunks from `at` on whose statement succeeds; `fails` is asked per chunk start. */
  function Committed(pending: seq<TradeRow>, fails: nat -> bool, at: nat): seq<seq<TradeRow>>
    decreases |pending| - at
  {
    if at >= |pending| then []
    else CommittedChunk(pending, fails, at) + Committed(pending, fails, ChunkEnd(|pending|, at))
  }

  /** Rows of the chunks from `at` on whose statement fails. */
  function Retained(pending: seq<TradeRow>, fails: nat -> bool, at: nat): seq<TradeRow>
    decreases |pending| - at
  {
    if at >= |pending| then []
    else RetainedChunk(pending, fails, at) + Retained(pending, fails, ChunkEnd(|pending|, at))
  }

  function Concat(batches: seq<seq<TradeRow>>): seq<TradeRow> {
    if batches == [] then [] else batches[0] + Concat(batches[1..])
  }

  lemma {:induction false} ConcatAppend(a: seq<seq<TradeRow>>, b: seq<seq<TradeRow>>)
    ensures Concat(a + b) == Concat(a) + Concat(b)
  {
    if a == [] {
      assert a + b == b;
    } else {
      assert (a + b)[0] == a[0] && (a + b)[1..] == a[1..] + b;
      ConcatAppend(a[1..], b);
    }
  }

  lemma {:induction false} ChunkSplit(pending: seq<TradeRow>, at: nat)
    requires at < |pending|
    ensures pending[at..] == ChunkAt(pending, at) + pending[ChunkEnd(|pending|, at)..]
  {
  }

  lemma {:induction false} ChunkConserves(chunk: seq<TradeRow>, done: seq<seq<TradeRow>>, kept: seq<TradeRow>,
                                          failed: bool)
    ensures multiset(chunk) + (multiset(Concat(done)) + multiset(kept))
         == multiset(Concat((if failed then [] else [chunk]) + done)) + multiset((if failed then chunk else []) + kept)
  {
    MultisetSums(multiset(chunk), multiset(Concat(done)), multiset(kept));
    if failed {
      assert [] + done == done;
      MultisetAppend(chunk, kept);
    } else {
      assert [] + kept == kept;
      ConcatCons(chunk, done);
      MultisetAppend(chunk, Concat(done));
    }
  }

  lemma {:induction false} FlushConserves(pending: seq<TradeRow>, fails: nat -> bool, at: nat)
    requires at <= |pending|
    ensures multiset(pending[at..])
         == multiset(Concat(Committed(pending, fails, at))) + multiset(Retained(pending, fails, at))
    decreases |pending| - at
  {
    if at < |pending| {
      var end := ChunkEnd(|pending|, at);
      ChunkSplit(pending, at);
      MultisetAppend(ChunkAt(pending, at), pending[end..]);
      ChunkConserves(ChunkAt(pending, at), Committed(pending, fails, end), Retained(pending, fails, end), fails(at));
      FlushConserves(pending, fails, end);
    }
  }

  lemma {:induction false} MultisetSums(a: multiset<TradeRow>, b: multiset<TradeRow>, c: multiset<TradeRow>)
    ensures a + (b + c) == b + (a + c) == (a + b) + c
  {
  }

  lemma {:induction false} MultisetAppend(a: seq<TradeRow>, b: seq<TradeRow>)
    ensures multiset(a + b) == multiset(a) + multiset(b)
  {
  }

  lemma {:induction false} ConcatCons(chunk: seq<TradeRow>, rest: seq<seq<TradeRow>>)
    ensures Concat([chunk] + rest) == chunk + Concat(rest)
  {
    assert ([chunk] + rest)[1..] == rest;
  }

  ghost predicate NoFailure(fails: nat -> bool) {
    forall k :: !fails(k)
  }

  ghost predicate Short(batches: seq<seq<TradeRow>>) {
    forall b :: b in batches ==> |b| <= CHUNK
  }

  lemma {:induction false} ShortAppend(a: seq<seq<TradeRow>>, b: seq<seq<TradeRow>>)
    requires Short(a) && Short(b)
    ensures Short(a + b)
  {
  }

  lemma {:induction false} CommittedShort(pending: seq<TradeRow>, fails: nat -> bool, at: nat)
    ensures Short(Committed(pending, fails, at))
    decreases |pending| - at
  {
    if at < |pending| {
      CommittedShort(pending, fails, ChunkEnd(|pending|, at));
    }
  }

  lemma {:induction false} WrittenAllAppend(t: Table, a: seq<seq<TradeRow>>, b: seq<seq<TradeRow>>)
    ensures WrittenAll(t, a + b) == WrittenAll(WrittenAll(t, a), b)
  {
    if b == [] {
      assert a + b == a;
    } else {
      assert (a + b)[..|a + b| - 1] == a + b[..|b| - 1] && (a + b)[|a + b| - 1] == b[|b| - 1];
      WrittenAllAppend(t, a, b[..|b| - 1]);
    }
  }

  /** One chunk: a failed statement hands its rows back. */
  method InsertChunk(db: Database, pending: seq<TradeRow>, fails: nat -> bool, at: nat)
    returns (retry: seq<TradeRow>, ghost done: seq<seq<TradeRow>>)
    requires at < |pending|
    modifies db
    ensures done == CommittedChunk(pending, fails, at) && retry == RetainedChunk(pending, fails, at)
    ensures db.table == WrittenAll(old(db.table), done)
  {
    var chunk := ChunkAt(pending, at);
    var ok := db.InsertBatch(chunk, fails(at));
    assert [chunk][..0] == [];
    if ok {
      return [], [chunk];
    }
    return chunk, [];
  }

  /** The chunk loop of `flush_buffer`: it goes on after a failed chunk. */
  method InsertChunks(db: Database, pending: seq<TradeRow>, fails: nat -> bool)
    returns (retry: seq<TradeRow>, ghost done: seq<seq<TradeRow>>)
    modifies db
    ensures done == Committed(pending, fails, 0) && retry == Retained(pending, fails, 0)
    ensures db.table == WrittenAll(old(db.table), done)
  {
    retry, done := [], [];
    var at := 0;
    while at < |pending|
      invariant 0 <= at <= |pending|
      invariant done + Committed(pending, fails, at) == Committed(pending, fails, 0)
      invariant retry + Retained(pending, fails, at) == Retained(pending, fails, 0)
      invariant db.table == WrittenAll(old(db.table), done)
      decreases |pending| - at
    {
      var end := ChunkEnd(|pending|, at);
      var failed; ghost var written;
      failed, written := InsertChunk(db, pending, fails, at);
      Assoc(done, written, Committed(pending, fails, end));
      Assoc(retry, failed, Retained(pending, fails, end));
      WrittenAllAppend(old(db.table), done, written);
      done := done + written;
      retry := retry + failed;
      at := end;
    }
  }

  /** Without a failure a flush commits everything, in order. */
  lemma {:induction false} FlushWithoutFailure(pending: seq<TradeRow>, fails: nat -> bool, at: nat)
    requires at <= |pending| && NoFailure(fails)
    ensures Retained(pending, fails, at) == [] && Concat(Committed(pending, fails, at)) == pending[at..]
    decreases |pending| - at
  {
    if at < |pending| {
      var end := ChunkEnd(|pending|, at);
      FlushWithoutFailure(pending, fails, end);
      ChunkSplit(pending, at);
    }
  }

  // ----- relative order -----

  /** `part` is `whole` with some rows left out. */
  predicate Subsequence(part: seq<TradeRow>, whole: seq<TradeRow>) {
    if part == [] then true
    else if whole == [] then false
    else (part[0] == whole[0] && Subsequence(part[1..], whole[1..])) || Subsequence(part, whole[1..])
  }

  lemma {:induction false} SubsequenceTransitive(a: seq<TradeRow>, b: seq<TradeRow>, c: seq<TradeRow>)
    requires Subsequence(a, b) && Subsequence(b, c)
    ensures Subsequence(a, c)
    decreases c
  {
    if a != [] {
      if Subsequence(b, c[1..]) {
        SubsequenceTransitive(a, b, c[1..]);
      } else if Subsequence(a, b[1..]) {
        SubsequenceTransitive(a, b[1..], c[1..]);
      } else {
        SubsequenceTransitive(a[1..], b[1..], c[1..]);
      }
    }
  }

  lemma {:induction false} SubsequenceAfter(skipped: seq<TradeRow>, part: seq<TradeRow>, whole: seq<TradeRow>)
    requires Subsequence(part, whole)
    ensures Subsequence(part, skipped + whole)
  {
    if skipped == [] {
      assert skipped + whole == whole;
    } else {
      SubsequenceAfter(skipped[1..], part, whole);
      assert (skipped + whole)[1..] == skipped[1..] + whole;
    }
  }

  lemma {:induction false} SubsequenceBoth(same: seq<TradeRow>, part: seq<TradeRow>, whole: seq<TradeRow>)
    requires Subsequence(part, whole)
    ensures Subsequence(same + part, same + whole)
  {
    if same == [] {
      assert same + part == part && same + whole == whole;
    } else {
      SubsequenceBoth(same[1..], part, whole);
      assert (same + part)[1..] == same[1..] + part && (same + whole)[1..] == same[1..] + whole;
    }
  }

  lemma {:induction false} SubsequencePush(part: seq<TradeRow>, whole: seq<TradeRow>, more: seq<TradeRow>)
    requires Subsequence(part, whole)
    ensures Subsequence(part + more, whole + more)
    decreases whole
  {
    if part == [] {
      assert part + more == [] + more == more;
      SubsequenceBoth(more, [], []);
      assert more + [] == more;
      SubsequenceAfter(whole, more, more);
    } else if Subsequence(part, whole[1..]) {
      SubsequencePush(part, whole[1..], more);
      assert (whole + more)[1..] == whole[1..] + more;
    } else {
      SubsequencePush(part[1..], whole[1..], more);
      assert (part + more)[1..] == part[1..] + more && (whole + more)[1..] == whole[1..] + more;
    }
  }

  lemma {:induction false} RetainedInOrder(pending: seq<TradeRow>, fails: nat -> bool, at: nat)
    requires at <= |pending|
    ensures Subsequence(Retained(pending, fails, at), pending[at..])
    decreases |pending| - at
  {
    if at < |pending| {
      var end := ChunkEnd(|pending|, at);
      RetainedInOrder(pending, fails, end);
      assert pending[at..] == pending[at..end] + pending[end..];
      if fails(at) {
        SubsequenceBoth(pending[at..end], Retained(pending, fails, end), pending[end..]);
      } else {
        SubsequenceAfter(pending[at..end], Retained(pending, fails, end), pending[end..]);
        assert [] + Retained(pending, fails, end) == Retained(pending, fails, end);
      }
    }
  }

  // ----- the inserter -----

  /** What the select loop sees: a timer tick (with the running flag), a record, or the end of
      the channel. */
  datatype Event = Tick(running: bool) | Received(row: TradeRow) | Closed

  predicate Exits(event: Event) {
    event.Closed? || (event.Tick? && !event.running)
  }

  /** The loop has taken `seen` events and left it with the last of them, or not yet. */
  ghost predicate StoppedAt(events: seq<Event>, seen: nat, exited: bool)
    requires seen <= |events|
  {
    && (forall k :: 0 <= k < seen - 1 ==> !Exits(events[k]))
    && (exited <==> seen > 0 && Exits(events[seen - 1]))
  }

  lemma {:induction false} NextEvent(events: seq<Event>, seen: nat)
    requires seen < |events| && StoppedAt(events, seen, false)
    ensures StoppedAt(events, seen + 1, Exits(events[seen]))
  {
  }

  function RowsOf(events: seq<Event>): seq<TradeRow> {
    if events == [] then []
    else (if events[0].Received? then [events[0].row] else []) + RowsOf(events[1..])
  }

  /** Every received row is in a committed batch or still buffered, buffered rows keep their
      order, no statement was too long, and the table holds exactly the committed batches. */
  ghost predicate Balanced(initial: Table, table: Table, batches: seq<seq<TradeRow>>, buffer: seq<TradeRow>,
                           received: seq<TradeRow>)
  {
    && multiset(received) == multiset(Concat(batches)) + multiset(buffer)
    && Subsequence(buffer, received)
    && Short(batches)
    && table == WrittenAll(initial, batches)
  }

  /** What waits in the buffer and what has been committed, batch by batch. */
  datatype Held = Held(buffer: seq<TradeRow>, batches: seq<seq<TradeRow>>)

  function Flushed(h: Held, fails: nat -> bool): Held {
    Held(Retained(h.buffer, fails, 0), h.batches + Committed(h.buffer, fails, 0))
  }

  /** A tick and the end of the channel flush whatever is buffered; a record only when it is the
      500th. */
  function AfterEvent(h: Held, event: Event, fails: nat -> bool): Held {
    if !event.Received? then Flushed(h, fails)
    else if |h.buffer| + 1 != CHUNK then Held(h.buffer + [event.row], h.batches)
    else Flushed(Held(h.buffer + [event.row], h.batches), fails)
  }

  function AfterEvents(h: Held, events: seq<Event>, fails: nat -> nat -> bool): Held {
    if events == [] then h
    else
      var last := |events| - 1;
      AfterEvent(AfterEvents(h, events[..last], fails), events[last], fails(last))
  }

  class BatchInserter {
    const db: Database
    var buffer: seq<TradeRow>
    ghost var received: seq<TradeRow>
    ghost var batches: seq<seq<TradeRow>>
    ghost const initial: Table

    constructor (db: Database)
      ensures Valid() && this.db == db
      ensures buffer == [] && received == [] && batches == [] && initial == db.table
    {
      this.db := db;
      buffer, received, batches, initial := [], [], [], db.table;
    }

    ghost function View(): Held
      reads this
    {
      Held(buffer, batches)
    }

    ghost predicate Valid()
      reads this, db
    {
      Balanced(initial, db.table, batches, buffer, received)
    }

    /** Nothing failed so far: commits are the received rows up to the buffer, in order. */
    ghost predicate InStep()
      reads this
    {
      received == Concat(batches) + buffer
    }

    /** In step, with less than a chunk buffered: the state between turns when nothing fails. */
    ghost predicate Smooth()
      reads this
    {
      InStep() && |buffer| < CHUNK
    }

    method FlushBuffer(fails: nat -> bool)
      requires Valid()
      modifies this`buffer, this`batches, db
      ensures Valid()
      ensures View() == Flushed(old(View()), fails)
      ensures NoFailure(fails) && old(InStep()) ==> InStep() && buffer == []
    {
      var pending := buffer;
      buffer := [];
      FlushKeeps(pending, fails, initial, db.table, batches, received);
      var retry; ghost var done;
      retry, done := InsertChunks(db, pending, fails);
      batches := batches + done;
      buffer := retry;
    }

    /** A flush of whatever is buffered. */
    method FlushPending(fails: nat -> bool)
      requires Valid()
      modifies this`buffer, this`batches, db
      ensures Valid()
      ensures View() == Flushed(old(View()), fails)
      ensures NoFailure(fails) && old(InStep()) ==> InStep() && buffer == []
    {
      EmptyFlush(batches, fails);
      if buffer != [] {
        FlushBuffer(fails);
      }
    }

    /** A record arrives; the buffer is flushed only when it reaches exactly 500 rows. */
    method Receive(row: TradeRow, fails: nat -> bool)
      requires Valid()
      modifies this, db
      ensures Valid() && received == old(received) + [row]
      ensures View() == AfterEvent(old(View()), Received(row), fails)
      ensures NoFailure(fails) && old(Smooth()) ==> Smooth()
    {
      SubsequencePush(buffer, received, [row]);
      Assoc(Concat(batches), buffer, [row]);
      buffer := buffer + [row];
      received := received + [row];
      if |buffer| == CHUNK {
        FlushBuffer(fails);
      }
    }

    /** One turn of the select loop. */
    method Handle(event: Event, fails: nat -> bool) returns (exit: bool)
      requires Valid()
      modifies this, db
      ensures Valid()
      ensures received == old(received) + RowsOf([event])
      ensures View() == AfterEvent(old(View()), event, fails)
      ensures exit <==> event.Closed? || (event.Tick? && !event.running)
      ensures NoFailure(fails) && old(Smooth()) ==> Smooth()
    {
      exit := false;
      assert RowsOf([event]) == if event.Received? then [event.row] else [];
      assert received + [] == received;
      match event {
        case Tick(running) =>
          FlushPending(fails);
          exit := !running;
        case Received(row) =>
          Receive(row, fails);
        case Closed =>
          FlushPending(fails);
          exit := true;
      }
    }

    /** After the loop: drain what is left in the channel and flush once more. */
    method Drain(leftover: seq<TradeRow>, fails: nat -> bool)
      requires Valid()
      modifies this, db
      ensures Valid() && received == old(received) + leftover
      ensures View() == Flushed(Held(old(buffer) + leftover, old(batches)), fails)
      ensures NoFailure(fails) && old(InStep()) ==> InStep() && buffer == []
    {
      SubsequencePush(buffer, received, leftover);
      Assoc(Concat(batches), buffer, leftover);
      buffer := buffer + leftover;
      received := received + leftover;
      FlushPending(fails);
    }

    /** The select loop over the events it is given; `fails` is asked per event and chunk. */
    method Loop(events: seq<Event>, fails: nat -> nat -> bool) returns (seen: nat, exited: bool)
      requires Valid()
      modifies this, db
      ensures Valid() && seen <= |events| && (!exited ==> seen == |events|)
      ensures received == old(received) + RowsOf(events[..seen])
      ensures View() == AfterEvents(old(View()), events[..seen], fails)
      ensures StoppedAt(events, seen, exited)
      ensures (forall e :: NoFailure(fails(e))) && old(Smooth()) ==> Smooth()
    {
      seen, exited := 0, false;
      ghost var clear := (forall e :: NoFailure(fails(e))) && Smooth();
      ghost var before, earlier := View(), received;
      NothingRan(before, earlier, events, fails);
      while seen < |events| && !exited
        invariant Valid() && 0 <= seen <= |events|
        invariant Ran(before, earlier, events, seen, fails, View(), received)
        invariant StoppedAt(events, seen, exited)
        invariant clear ==> Smooth()
        decreases |events| - seen
      {
        RanOn(before, earlier, events, seen, fails, View(), received);
        NextEvent(events, seen);
        exited := Handle(events[seen], fails(seen));
        seen := seen + 1;
      }
    }

    method Run(events: seq<Event>, leftover: seq<TradeRow>, fails: nat -> nat -> bool) returns (seen: nat, exited: bool)
      requires Valid()
      modifies this, db
      ensures Valid() && seen <= |events| && (!exited ==> seen == |events|)
      ensures received == old(received) + RowsOf(events[..seen]) + (if exited then leftover else [])
      ensures var h := AfterEvents(old(View()), events[..seen], fails);
              View() == if exited then Flushed(Held(h.buffer + leftover, h.batches), fails(seen)) else h
      ensures (forall e :: NoFailure(fails(e))) && old(Smooth()) ==> Smooth() && (exited ==> buffer == [])
    {
      seen, exited := Loop(events, fails);
      if exited {
        Drain(leftover, fails(seen));
      }
    }
  }

  lemma {:induction false} EmptyFlush(batches: seq<seq<TradeRow>>, fails: nat -> bool)
    ensures Flushed(Held([], batches), fails) == Held([], batches)
  {
    assert batches + [] == batches;
  }

  /** The loop's bookkeeping after `seen` events. */
  ghost predicate Ran(before: Held, earlier: seq<TradeRow>, events: seq<Event>, seen: nat, fails: nat -> nat -> bool,
                      h: Held, received: seq<TradeRow>)
  {
    && seen <= |events|
    && h == AfterEvents(before, events[..seen], fails)
    && received == earlier + RowsOf(events[..seen])
  }

  lemma {:induction false} NothingRan(before: Held, earlier: seq<TradeRow>, events: seq<Event>,
                                      fails: nat -> nat -> bool)
    ensures Ran(before, earlier, events, 0, fails, before, earlier)
  {
    assert earlier + [] == earlier;
  }

  lemma {:induction false} RanOn(before: Held, earlier: seq<TradeRow>, events: seq<Event>, seen: nat,
                                 fails: nat -> nat -> bool, h: Held, received: seq<TradeRow>)
    requires seen < |events| && Ran(before, earlier, events, seen, fails, h, received)
    ensures Ran(before, earlier, events, seen + 1, fails, AfterEvent(h, events[seen], fails(seen)),
                received + RowsOf([events[seen]]))
  {
    assert events[..seen + 1][..seen] == events[..seen];
    RowsOfPush(events, seen);
    Assoc(earlier, RowsOf(events[..seen]), RowsOf([events[seen]]));
  }

  // ----- what a flush leaves, row by row -----

  /** Where the chunk of row `at` starts. */
  function ChunkOf(at: nat): nat {
    at - at % CHUNK
  }

  lemma {:induction false} ChunkOfRow(start: nat, at: nat)
    requires start % CHUNK == 0 && start <= at < start + CHUNK
    ensures ChunkOf(at) == start
  {
  }

  /** The rows from `at` on whose own chunk fails. */
  function RowsOfFailed(rows: seq<TradeRow>, fails: nat -> bool, at: nat): seq<TradeRow>
    decreases |rows| - at
  {
    if at >= |rows| then []
    else (if fails(ChunkOf(at)) then [rows[at]] else []) + RowsOfFailed(rows, fails, at + 1)
  }

  function RowsOfStored(rows: seq<TradeRow>, fails: nat -> bool, at: nat): seq<TradeRow>
    decreases |rows| - at
  {
    if at >= |rows| then []
    else (if fails(ChunkOf(at)) then [] else [rows[at]]) + RowsOfStored(rows, fails, at + 1)
  }

  /** Inside one chunk all rows share its fate. */
  lemma {:induction false} ChunkRows(rows: seq<TradeRow>, fails: nat -> bool, start: nat, at: nat, end: nat)
    requires start % CHUNK == 0 && start <= at <= end <= |rows| && end <= start + CHUNK
    ensures RowsOfFailed(rows, fails, at)
         == (if fails(start) then rows[at..end] else []) + RowsOfFailed(rows, fails, end)
    ensures RowsOfStored(rows, fails, at)
         == (if fails(start) then [] else rows[at..end]) + RowsOfStored(rows, fails, end)
    decreases end - at
  {
    if at < end {
      ChunkOfRow(start, at);
      ChunkRows(rows, fails, start, at + 1, end);
      assert rows[at..end] == [rows[at]] + rows[at + 1..end];
      if fails(start) {
        Assoc([rows[at]], rows[at + 1..end], RowsOfFailed(rows, fails, end));
      } else {
        Assoc([rows[at]], rows[at + 1..end], RowsOfStored(rows, fails, end));
      }
    }
  }

  lemma {:induction false} ChunkEndAligned(n: nat, at: nat)
    requires at < n && at % CHUNK == 0
    ensures var end := ChunkEnd(n, at); end <= at + CHUNK && (end % CHUNK == 0 || end == n)
  {
  }

  lemma {:induction false} RetainedStep(rows: seq<TradeRow>, fails: nat -> bool, at: nat)
    requires at < |rows|
    ensures var end := ChunkEnd(|rows|, at);
            Retained(rows, fails, at) == (if fails(at) then rows[at..end] else []) + Retained(rows, fails, end)
  {
  }

  lemma {:induction false} CommittedStep(rows: seq<TradeRow>, fails: nat -> bool, at: nat)
    requires at < |rows|
    ensures var end := ChunkEnd(|rows|, at);
            Concat(Committed(rows, fails, at))
            == (if fails(at) then [] else rows[at..end]) + Concat(Committed(rows, fails, end))
  {
    var rest := Committed(rows, fails, ChunkEnd(|rows|, at));
    if fails(at) {
      assert [] + rest == rest && [] + Concat(rest) == Concat(rest);
    } else {
      ConcatCons(ChunkAt(rows, at), rest);
    }
  }

  /** Chunk by chunk and row by row are the same. */
  lemma {:induction false} ChunksByRow(rows: seq<TradeRow>, fails: nat -> bool, at: nat)
    requires at <= |rows| && (at % CHUNK == 0 || at == |rows|)
    ensures Retained(rows, fails, at) == RowsOfFailed(rows, fails, at)
    ensures Concat(Committed(rows, fails, at)) == RowsOfStored(rows, fails, at)
    decreases |rows| - at
  {
    if at < |rows| {
      var end := ChunkEnd(|rows|, at);
      ChunkEndAligned(|rows|, at);
      ChunkRows(rows, fails, at, at, end);
      RetainedStep(rows, fails, at);
      CommittedStep(rows, fails, at);
      ChunksByRow(rows, fails, end);
    }
  }

  /** A tick and the end of the channel empty the buffer into the table, except for the rows of
      failed chunks. */
  lemma {:induction false} TicksFlush(h: Held, event: Event, fails: nat -> bool)
    requires event.Tick? || event.Closed?
    ensures var after := AfterEvent(h, event, fails);
            && after.buffer == RowsOfFailed(h.buffer, fails, 0)
            && h.batches <= after.batches
            && Concat(after.batches) == Concat(h.batches) + RowsOfStored(h.buffer, fails, 0)
    ensures var after := AfterEvent(h, event, fails);
            NoFailure(fails) ==> after.buffer == [] && Concat(after.batches) == Concat(h.batches) + h.buffer
  {
    ChunksByRow(h.buffer, fails, 0);
    ConcatAppend(h.batches, Committed(h.buffer, fails, 0));
    if NoFailure(fails) {
      FlushWithoutFailure(h.buffer, fails, 0);
      assert h.buffer[0..] == h.buffer;
    }
  }

  // ----- when a record flushes -----

  /** The flush a record triggers is one statement: it commits all 500 rows or keeps them all. */
  lemma {:induction false} FullBufferFlush(h: Held, row: TradeRow, fails: nat -> bool)
    requires |h.buffer| + 1 == 500
    ensures var full := h.buffer + [row];
            AfterEvent(h, Received(row), fails)
            == if fails(0) then Held(full, h.batches) else Held([], h.batches + [full])
  {
    var full := h.buffer + [row];
    assert ChunkAt(full, 0) == full && ChunkEnd(|full|, 0) == |full|;
    assert Committed(full, fails, 0) == if fails(0) then [] else [full];
    assert Retained(full, fails, 0) == if fails(0) then full else [];
    assert h.batches + [] == h.batches;
  }

  /** Once 500 rows are retained, no number of records flushes them: that takes a tick or the end
      of the channel. */
  lemma {:induction false} RecordsNeverFlushFull(h: Held, events: seq<Event>, fails: nat -> nat -> bool)
    requires |h.buffer| >= 500 && forall e :: e in events ==> e.Received?
    ensures AfterEvents(h, events, fails) == Held(h.buffer + RowsOf(events), h.batches)
  {
    if events == [] {
      assert h.buffer + [] == h.buffer;
    } else {
      var last := |events| - 1;
      RecordsNeverFlushFull(h, events[..last], fails);
      RowsOfPush(events, last);
      assert events[..last + 1] == events && events[last] in events;
      assert RowsOf([events[last]]) == [events[last].row] + [];
      Assoc(h.buffer, RowsOf(events[..last]), [events[last].row]);
    }
  }

  /** "Flush when the buffer reaches 500 rows", read as: at 500 rows or more. */
  function AtLeastFull(h: Held, row: TradeRow, fails: nat -> bool): Held {
    var more := Held(h.buffer + [row], h.batches);
    if |more.buffer| >= 500 then Flushed(more, fails) else more
  }

  /** A record is treated that way exactly when fewer than 500 rows are waiting, or the flush would
      commit nothing anyway. */
  lemma {:induction false} ThresholdIff(h: Held, row: TradeRow, fails: nat -> bool)
    ensures AfterEvent(h, Received(row), fails) == AtLeastFull(h, row, fails)
       <==> |h.buffer| < 500 || AllFail(|h.buffer| + 1, fails, 0)
  {
    var full := h.buffer + [row];
    if |h.buffer| >= CHUNK {
      NothingCommitted(full, fails, 0);
      if AllFail(|full|, fails, 0) {
        assert full[0..] == full && h.batches + [] == h.batches;
      } else {
        assert |h.batches + Committed(full, fails, 0)| > |h.batches|;
      }
    }
  }

  lemma {:induction false} NothingCommitted(pending: seq<TradeRow>, fails: nat -> bool, at: nat)
    requires at <= |pending|
    ensures AllFail(|pending|, fails, at) ==> Committed(pending, fails, at) == []
    ensures AllFail(|pending|, fails, at) ==> Retained(pending, fails, at) == pending[at..]
    ensures !AllFail(|pending|, fails, at) ==> Committed(pending, fails, at) != []
    decreases |pending| - at
  {
    if at < |pending| {
      NothingCommitted(pending, fails, ChunkEnd(|pending|, at));
      ChunkSplit(pending, at);
    }
  }

  lemma {:induction false} RowsOfAppend(a: seq<Event>, b: seq<Event>)
    ensures RowsOf(a + b) == RowsOf(a) + RowsOf(b)
  {
    if a == [] {
      assert a + b == b;
    } else {
      assert (a + b)[0] == a[0] && (a + b)[1..] == a[1..] + b;
      RowsOfAppend(a[1..], b);
    }
  }

  lemma {:induction false} RowsOfPush(events: seq<Event>, i: nat)
    requires i < |events|
    ensures RowsOf(events[..i + 1]) == RowsOf(events[..i]) + RowsOf([events[i]])
  {
    assert events[..i + 1] == events[..i] + [events[i]];
    RowsOfAppend(events[..i], [events[i]]);
  }

  /** What one flush keeps of the inserter's bookkeeping. */
  lemma {:induction false} FlushKeeps(pending: seq<TradeRow>, fails: nat -> bool, initial: Table, table: Table,
                                      batches: seq<seq<TradeRow>>, received: seq<TradeRow>)
    requires Balanced(initial, table, batches, pending, received)
    ensures var done, kept := Committed(pending, fails, 0), Retained(pending, fails, 0);
            && Balanced(initial, WrittenAll(table, done), batches + done, kept, received)
            && (NoFailure(fails) ==> kept == [])
            && (NoFailure(fails) && received == Concat(batches) + pending ==> received == Concat(batches + done) + kept)
  {
    var done, kept := Committed(pending, fails, 0), Retained(pending, fails, 0);
    WrittenAllAppend(initial, batches, done);
    CommittedShort(pending, fails, 0);
    ShortAppend(batches, done);
    FlushConserves(pending, fails, 0);
    assert pending[0..] == pending;
    ConcatAppend(batches, done);
    MultisetAppend(Concat(batches), Concat(done));
    MultisetSums(multiset(Concat(batches)), multiset(Concat(done)), multiset(kept));
    RetainedInOrder(pending, fails, 0);
    SubsequenceTransitive(kept, pending, received);
    if NoFailure(fails) {
      FlushWithoutFailure(pending, fails, 0);
    }
  }

  // ----- when commits are a prefix -----

  /** From the chunk at `at` on, no chunk succeeds after one that failed. */
  ghost predicate FailuresLast(n: nat, fails: nat -> bool, at: nat)
    decreases n - at
  {
    at >= n || if fails(at) then AllFail(n, fails, ChunkEnd(n, at)) else FailuresLast(n, fails, ChunkEnd(n, at))
  }

  ghost predicate AllFail(n: nat, fails: nat -> bool, at: nat)
    decreases n - at
  {
    at >= n || (fails(at) && AllFail(n, fails, ChunkEnd(n, at)))
  }

  lemma {:induction false} AllFailIff(pending: seq<TradeRow>, fails: nat -> bool, at: nat)
    requires at <= |pending|
    ensures AllFail(|pending|, fails, at) <==> Concat(Committed(pending, fails, at)) == []
    decreases |pending| - at
  {
    if at < |pending| {
      var end := ChunkEnd(|pending|, at);
      AllFailIff(pending, fails, end);
      if !fails(at) {
        ConcatCons(ChunkAt(pending, at), Committed(pending, fails, end));
      } else {
        assert [] + Committed(pending, fails, end) == Committed(pending, fails, end);
      }
    }
  }

  lemma {:induction false} CommittedMember(pending: seq<TradeRow>, fails: nat -> bool, at: nat, r: TradeRow)
    requires at <= |pending| && r in Concat(Committed(pending, fails, at))
    ensures r in pending[at..]
  {
    FlushConserves(pending, fails, at);
    assert r in multiset(Concat(Committed(pending, fails, at)));
    assert r in multiset(pending[at..]);
  }

  /** After a failed chunk, nothing but an empty commit is a prefix of what was waiting. */
  lemma {:induction false} NoPrefixAfterFailure(pending: seq<TradeRow>, fails: nat -> bool, at: nat)
    requires Distinct(pending) && at < |pending| && fails(at)
    ensures Concat(Committed(pending, fails, at)) <= pending[at..]
       <==> AllFail(|pending|, fails, ChunkEnd(|pending|, at))
  {
    var end := ChunkEnd(|pending|, at);
    var rest := Concat(Committed(pending, fails, end));
    assert [] + Committed(pending, fails, end) == Committed(pending, fails, end);
    assert Concat(Committed(pending, fails, at)) == rest;
    AllFailIff(pending, fails, end);
    if rest != [] {
      CommittedMember(pending, fails, end, rest[0]);
      var k :| 0 <= k < |pending[end..]| && pending[end..][k] == rest[0];
      assert pending[end + k] == rest[0] && pending[at..][0] == pending[at];
    }
  }

  lemma {:induction false} PrefixTail(chunk: seq<TradeRow>, rest: seq<TradeRow>, whole: seq<TradeRow>)
    ensures chunk + rest <= chunk + whole <==> rest <= whole
  {
    if chunk + rest <= chunk + whole {
      assert (chunk + rest)[|chunk|..] == rest && (chunk + whole)[|chunk|..] == whole;
      assert forall k :: 0 <= k < |rest| ==> rest[k] == (chunk + rest)[|chunk| + k] == (chunk + whole)[|chunk| + k];
    }
  }

  /** What a flush commits is a prefix of what was waiting exactly when no chunk succeeds after
      one that failed. */
  lemma {:induction false} CommitsArePrefixIff(pending: seq<TradeRow>, fails: nat -> bool, at: nat)
    requires Distinct(pending) && at <= |pending|
    ensures Concat(Committed(pending, fails, at)) <= pending[at..] <==> FailuresLast(|pending|, fails, at)
    decreases |pending| - at
  {
    if at < |pending| {
      var end := ChunkEnd(|pending|, at);
      if fails(at) {
        NoPrefixAfterFailure(pending, fails, at);
      } else {
        CommitsArePrefixIff(pending, fails, end);
        ConcatCons(ChunkAt(pending, at), Committed(pending, fails, end));
        ChunkSplit(pending, at);
        PrefixTail(ChunkAt(pending, at), Concat(Committed(pending, fails, end)), pending[end..]);
      }
    }
  }

  /** After a failed chunk a flush goes on: of two chunks, the first failing and the second
      succeeding, only the later rows are committed. */
  lemma {:induction false} LaterChunkCommitsFirst(pending: seq<TradeRow>, fails: nat -> bool)
    requires |pending| == 2 * CHUNK && fails(0) && !fails(CHUNK)
    ensures Committed(pending, fails, 0) == [pending[CHUNK..]] && Retained(pending, fails, 0) == pending[..CHUNK]
  {
    assert Committed(pending, fails, 2 * CHUNK) == [] && Retained(pending, fails, 2 * CHUNK) == [];
    assert ChunkAt(pending, CHUNK) == pending[CHUNK..] && ChunkAt(pending, 0) == pending[..CHUNK];
    assert ChunkEnd(|pending|, CHUNK) == 2 * CHUNK;
    assert Committed(pending, fails, CHUNK) == [pending[CHUNK..]];
    assert Retained(pending, fails, CHUNK) == [];
  }
}
