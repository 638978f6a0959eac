/** The trade tables: idempotent upsert, and the coalescing of duplicate keys inside one
    statement (src/database/trades.rs, src/database/alt_trades.rs). */
module TradeStore {
  import opened Prelude

  /** Primary key (tx_signature, ix_index). */
  datatype RowKey = RowKey(signature: seq<byte>, ixIndex: nat)

  /** One row. `columns` are the values every upsert overwrites, as is the slot; the quote
      decimals are overwritten only by a value; `createdAt` is never overwritten.
      `amm_trades` has no quote decimals: its rows carry None. */
  datatype TradeRow = TradeRow(key: RowKey, slot: nat, columns: seq<int>, quoteDecimals: Option<int>, createdAt: int)

  type Table = map<RowKey, TradeRow>

  // ----- upsert -----

  function Coalesced(value: Option<int>, stored: Option<int>): Option<int> {
    if value.Some? then value else stored
  }

  function Upsert(t: Table, r: TradeRow): Table {
    if r.key !in t then t[r.key := r]
    else
      var stored := t[r.key];
      t[r.key := r.(quoteDecimals := Coalesced(r.quoteDecimals, stored.quoteDecimals), createdAt := stored.createdAt)]
  }

  /** Upserting rows one by one, first row first. */
  function UpsertAll(t: Table, rows: seq<TradeRow>): Table {
    if rows == [] then t else Upsert(UpsertAll(t, rows[..|rows| - 1]), rows[|rows| - 1])
  }

  lemma {:induction false} UpsertAllAppend(t: Table, a: seq<TradeRow>, b: seq<TradeRow>)
    ensures UpsertAll(t, a + b) == UpsertAll(UpsertAll(t, a), b)
  {
    if b == [] {
      assert a + b == a;
    } else {
      assert (a + b)[..|a + b| - 1] == a + b[..|b| - 1] && (a + b)[|a + b| - 1] == b[|b| - 1];
      UpsertAllAppend(t, a, b[..|b| - 1]);
    }
  }

  // ----- keys of a batch -----

  /** The distinct keys of a batch, in order of first appearance. */
  function FirstKeys(rows: seq<TradeRow>): seq<RowKey> {
    if rows == [] then []
    else
      var keys, k := FirstKeys(rows[..|rows| - 1]), rows[|rows| - 1].key;
      if k in keys then keys else keys + [k]
  }

  predicate Mentions(rows: seq<TradeRow>, k: RowKey) {
    exists r :: r in rows && r.key == k
  }

  /** The last row with key `k`. */
  function LastRow(rows: seq<TradeRow>, k: RowKey): TradeRow
    requires Mentions(rows, k)
  {
    if rows[|rows| - 1].key == k then rows[|rows| - 1]
    else
      MentionedEarlier(rows, k);
      LastRow(rows[..|rows| - 1], k)
  }

  function FirstRow(rows: seq<TradeRow>, k: RowKey): TradeRow
    requires Mentions(rows, k)
  {
    if rows[0].key == k then rows[0]
    else
      assert rows == [rows[0]] + rows[1..];
      FirstRow(rows[1..], k)
  }

  /** The last quote decimals any row with key `k` carries. */
  function LastDecimals(rows: seq<TradeRow>, k: RowKey): Option<int> {
    if rows == [] then None
    else
      var r, before := rows[|rows| - 1], LastDecimals(rows[..|rows| - 1], k);
      if r.key == k then Coalesced(r.quoteDecimals, before) else before
  }

  lemma {:induction false} MentionedEarlier(rows: seq<TradeRow>, k: RowKey)
    requires rows != []
    ensures Mentions(rows, k) <==> rows[|rows| - 1].key == k || Mentions(rows[..|rows| - 1], k)
  {
    var init, last := rows[..|rows| - 1], rows[|rows| - 1];
    assert rows == init + [last];
    if Mentions(init, k) {
      var r :| r in init && r.key == k;
      assert r in rows;
    }
  }

  lemma {:induction false} FirstKeysAreMentioned(rows: seq<TradeRow>, k: RowKey)
    ensures k in FirstKeys(rows) <==> Mentions(rows, k)
  {
    if rows != [] {
      MentionedEarlier(rows, k);
      FirstKeysAreMentioned(rows[..|rows| - 1], k);
    }
  }

  lemma {:induction false} FirstKeysDistinct(rows: seq<TradeRow>)
    ensures Distinct(FirstKeys(rows))
  {
    if rows != [] {
      FirstKeysDistinct(rows[..|rows| - 1]);
    }
  }

  // ----- coalescing -----

  /** One row per key, in first-appearance order, holding the last value delivered. */
  ghost predicate IsCoalesced(unique: seq<TradeRow>, rows: seq<TradeRow>) {
    && |unique| == |FirstKeys(rows)|
    && forall i :: 0 <= i < |unique| ==>
         && Mentions(rows, FirstKeys(rows)[i])
         && unique[i] == LastRow(rows, FirstKeys(rows)[i])
  }

  lemma {:induction false} LastRowHasKey(rows: seq<TradeRow>, k: RowKey)
    requires Mentions(rows, k)
    ensures LastRow(rows, k).key == k && LastRow(rows, k) in rows
  {
    MentionedEarlier(rows, k);
    if rows[|rows| - 1].key != k {
      LastRowHasKey(rows[..|rows| - 1], k);
    }
  }

  lemma {:induction false} LastRowStep(rows: seq<TradeRow>, row: TradeRow, k: RowKey)
    requires Mentions(rows, k) || row.key == k
    ensures Mentions(rows + [row], k)
    ensures LastRow(rows + [row], k) == if row.key == k then row else LastRow(rows, k)
  {
    var all := rows + [row];
    assert all[..|all| - 1] == rows && all[|all| - 1] == row;
    MentionedEarlier(all, k);
  }

  lemma {:induction false} FirstKeysStep(rows: seq<TradeRow>, row: TradeRow)
    ensures FirstKeys(rows + [row]) == FirstKeys(rows) + (if row.key in FirstKeys(rows) then [] else [row.key])
  {
    var all := rows + [row];
    assert all[..|all| - 1] == rows && all[|all| - 1] == row;
    assert FirstKeys(rows) + [] == FirstKeys(rows);
  }

  /** What one more row does to a coalesced batch. */
  lemma {:induction false} CoalescedStep(unique: seq<TradeRow>, rows: seq<TradeRow>, row: TradeRow, position: nat)
    requires IsCoalesced(unique, rows)
    requires position <= |unique| && (position < |unique| ==> FirstKeys(rows)[position] == row.key)
    requires position == |unique| ==> row.key !in FirstKeys(rows)
    ensures IsCoalesced(if position < |unique| then unique[position := row] else unique + [row], rows + [row])
  {
    var keys := FirstKeys(rows);
    FirstKeysDistinct(rows);
    FirstKeysStep(rows, row);
    forall i | 0 <= i < |keys|
      ensures Mentions(rows + [row], keys[i])
              && LastRow(rows + [row], keys[i]) == if i == position then row else unique[i]
    {
      LastRowStep(rows, row, keys[i]);
    }
    LastRowStep(rows, row, row.key);
  }

  method CoalesceDuplicateRows(rows: seq<TradeRow>) returns (unique: seq<TradeRow>)
    ensures IsCoalesced(unique, rows)
  {
    var positions: map<RowKey, nat> := map[];
    unique := [];
    for i := 0 to |rows|
      invariant IsCoalesced(unique, rows[..i])
      invariant forall k :: k in positions <==> k in FirstKeys(rows[..i])
      invariant forall k :: k in positions ==> positions[k] < |unique| && FirstKeys(rows[..i])[positions[k]] == k
    {
      var row := rows[i];
      ghost var keys := FirstKeys(rows[..i]);
      assert rows[..i + 1] == rows[..i] + [row];
      assert rows[..i + 1][..i] == rows[..i];
      if row.key in positions {
        CoalescedStep(unique, rows[..i], row, positions[row.key]);
        unique := unique[positions[row.key] := row];
      } else {
        CoalescedStep(unique, rows[..i], row, |unique|);
        positions := positions[row.key := |unique|];
        unique := unique + [row];
      }
    }
    assert rows[..|rows|] == rows;
  }

  // ----- one statement equals row by row -----

  /** The row stored under `k` once `rows` were upserted one by one. */
  lemma {:induction false} UpsertAllAt(t: Table, rows: seq<TradeRow>, k: RowKey)
    ensures !Mentions(rows, k) ==> (k in UpsertAll(t, rows) <==> k in t) && (k in t ==> UpsertAll(t, rows)[k] == t[k])
    ensures Mentions(rows, k) ==>
              && k in UpsertAll(t, rows)
              && UpsertAll(t, rows)[k] == LastRow(rows, k).(
                   quoteDecimals := Coalesced(LastDecimals(rows, k), if k in t then t[k].quoteDecimals else None),
                   createdAt := if k in t then t[k].createdAt else FirstRow(rows, k).createdAt)
  {
    if rows != [] {
      var init, last := rows[..|rows| - 1], rows[|rows| - 1];
      MentionedEarlier(rows, k);
      UpsertAllAt(t, init, k);
      if Mentions(rows, k) {
        FirstRowOfInit(rows, k);
        LastRowHasKey(rows, k);
      }
      if !Mentions(init, k) {
        NoDecimals(init, k);
      }
    }
  }

  lemma {:induction false} FirstRowOfInit(rows: seq<TradeRow>, k: RowKey)
    requires rows != [] && Mentions(rows, k)
    ensures Mentions(rows[..|rows| - 1], k) ==> FirstRow(rows, k) == FirstRow(rows[..|rows| - 1], k)
    ensures !Mentions(rows[..|rows| - 1], k) ==> FirstRow(rows, k) == rows[|rows| - 1]
  {
    var init := rows[..|rows| - 1];
    if |rows| > 1 {
      assert init[0] == rows[0];
      assert rows[1..][..|rows| - 2] == init[1..];
      if rows[0].key == k {
        assert init[0] in init;
      } else {
        assert rows == [rows[0]] + rows[1..];
        assert init == [init[0]] + init[1..];
        FirstRowOfInit(rows[1..], k);
      }
    }
  }

  /** A coalesced batch mentions the same keys, once each, with the last row. */
  lemma {:induction false} CoalescedAt(unique: seq<TradeRow>, rows: seq<TradeRow>, k: RowKey)
    requires IsCoalesced(unique, rows)
    ensures Mentions(unique, k) <==> Mentions(rows, k)
    ensures Mentions(rows, k) ==>
              && LastRow(unique, k) == FirstRow(unique, k) == LastRow(rows, k)
              && LastDecimals(unique, k) == LastRow(rows, k).quoteDecimals
  {
    var keys := FirstKeys(rows);
    FirstKeysDistinct(rows);
    FirstKeysAreMentioned(rows, k);
    forall i | 0 <= i < |unique| ensures unique[i].key == keys[i] {
      LastRowHasKey(rows, keys[i]);
    }
    if Mentions(rows, k) {
      var i :| 0 <= i < |keys| && keys[i] == k;
      assert unique[i] in unique;
      OnlyRow(unique, i);
    }
  }

  lemma {:induction false} OnlyRow(rows: seq<TradeRow>, i: nat)
    requires i < |rows| && forall a, b :: 0 <= a < b < |rows| ==> rows[a].key != rows[b].key
    ensures var k := rows[i].key;
            && Mentions(rows, k) && LastRow(rows, k) == rows[i] == FirstRow(rows, k)
            && LastDecimals(rows, k) == rows[i].quoteDecimals
  {
    var k, init := rows[i].key, rows[..|rows| - 1];
    assert rows[i] in rows;
    MentionedEarlier(rows, k);
    FirstRowOfInit(rows, k);
    if i == |rows| - 1 {
      assert !Mentions(init, k);
      NoDecimals(init, k);
    } else {
      assert init[i] == rows[i];
      OnlyRow(init, i);
    }
  }

  lemma {:induction false} NoDecimals(rows: seq<TradeRow>, k: RowKey)
    requires !Mentions(rows, k)
    ensures LastDecimals(rows, k) == None
  {
    if rows != [] {
      MentionedEarlier(rows, k);
      NoDecimals(rows[..|rows| - 1], k);
    }
  }

  ghost predicate SameOverwritten(a: Table, b: Table) {
    && (forall k :: k in a <==> k in b)
    && (forall k :: k in a ==> a[k].key == b[k].key && a[k].slot == b[k].slot && a[k].columns == b[k].columns)
  }

  /** One statement over the coalesced rows stores what upserting the rows one by one stores,
      on every overwritten column. */
  lemma {:induction false} BatchEqualsRowByRow(t: Table, rows: seq<TradeRow>, unique: seq<TradeRow>)
    requires IsCoalesced(unique, rows)
    ensures SameOverwritten(UpsertAll(t, unique), UpsertAll(t, rows))
  {
    var a, b := UpsertAll(t, unique), UpsertAll(t, rows);
    forall k
      ensures k in a <==> k in b
      ensures k in a ==> a[k].key == b[k].key && a[k].slot == b[k].slot && a[k].columns == b[k].columns
    {
      CoalescedAt(unique, rows, k);
      UpsertAllAt(t, rows, k);
      UpsertAllAt(t, unique, k);
    }
  }

  /** It stores the same quote decimals exactly when the last duplicate carries a value, or no
      earlier one carries a value other than the stored one; and the same creation time exactly
      when the key was stored before, or its first and last duplicates were created together. */
  lemma {:induction false} BatchOnOtherColumns(t: Table, rows: seq<TradeRow>, unique: seq<TradeRow>, k: RowKey)
    requires IsCoalesced(unique, rows) && Mentions(rows, k)
    ensures k in UpsertAll(t, unique) && k in UpsertAll(t, rows)
    ensures UpsertAll(t, unique)[k].quoteDecimals == UpsertAll(t, rows)[k].quoteDecimals <==>
              || LastRow(rows, k).quoteDecimals.Some?
              || LastDecimals(rows, k) == None
              || LastDecimals(rows, k) == if k in t then t[k].quoteDecimals else None
    ensures UpsertAll(t, unique)[k].createdAt == UpsertAll(t, rows)[k].createdAt <==>
              k in t || FirstRow(rows, k).createdAt == LastRow(rows, k).createdAt
  {
    CoalescedAt(unique, rows, k);
    UpsertAllAt(t, rows, k);
    UpsertAllAt(t, unique, k);
    LastValueWins(rows, k);
  }

  lemma {:induction false} LastValueWins(rows: seq<TradeRow>, k: RowKey)
    requires Mentions(rows, k)
    ensures LastRow(rows, k).quoteDecimals.Some? ==> LastDecimals(rows, k) == LastRow(rows, k).quoteDecimals
  {
    MentionedEarlier(rows, k);
    if rows[|rows| - 1].key != k {
      LastValueWins(rows[..|rows| - 1], k);
    }
  }

  // ----- what is stored, read off positions -----

  /** Row `i` is the last one of its key. */
  ghost predicate LastOfKey(rows: seq<TradeRow>, k: RowKey, i: nat) {
    i < |rows| && rows[i].key == k && forall j :: i < j < |rows| ==> rows[j].key != k
  }

  ghost predicate FirstOfKey(rows: seq<TradeRow>, k: RowKey, i: nat) {
    i < |rows| && rows[i].key == k && forall j :: 0 <= j < i ==> rows[j].key != k
  }

  /** Row `i` is the last one of its key that carries quote decimals. */
  ghost predicate LastCarrying(rows: seq<TradeRow>, k: RowKey, i: nat) {
    && i < |rows| && rows[i].key == k && rows[i].quoteDecimals.Some?
    && forall j :: i < j < |rows| && rows[j].key == k ==> rows[j].quoteDecimals.None?
  }

  lemma {:induction false} LastRowAt(rows: seq<TradeRow>, k: RowKey, i: nat)
    requires LastOfKey(rows, k, i)
    ensures Mentions(rows, k) && LastRow(rows, k) == rows[i]
  {
    assert rows[i] in rows;
    if i < |rows| - 1 {
      LastRowAt(rows[..|rows| - 1], k, i);
    }
  }

  lemma {:induction false} FirstRowAt(rows: seq<TradeRow>, k: RowKey, i: nat)
    requires FirstOfKey(rows, k, i)
    ensures Mentions(rows, k) && FirstRow(rows, k) == rows[i]
  {
    assert rows[i] in rows;
    if i > 0 {
      assert forall j :: 0 <= j < |rows| - 1 ==> rows[1..][j] == rows[j + 1];
      FirstRowAt(rows[1..], k, i - 1);
    }
  }

  lemma {:induction false} LastDecimalsAt(rows: seq<TradeRow>, k: RowKey, i: nat)
    requires LastCarrying(rows, k, i)
    ensures LastDecimals(rows, k) == rows[i].quoteDecimals
  {
    if i < |rows| - 1 {
      LastDecimalsAt(rows[..|rows| - 1], k, i);
    }
  }

  lemma {:induction false} NoDecimalsAnywhere(rows: seq<TradeRow>, k: RowKey)
    requires forall r :: r in rows && r.key == k ==> r.quoteDecimals.None?
    ensures LastDecimals(rows, k) == None
  {
    if rows != [] {
      assert rows[|rows| - 1] in rows && forall r :: r in rows[..|rows| - 1] ==> r in rows;
      NoDecimalsAnywhere(rows[..|rows| - 1], k);
    }
  }

  /** After upserting rows one by one, a key they mention holds the columns of its last row, and the
      creation time it was first stored with. */
  lemma {:induction false} StoredAt(t: Table, rows: seq<TradeRow>, k: RowKey, first: nat, last: nat)
    requires FirstOfKey(rows, k, first) && LastOfKey(rows, k, last)
    ensures k in UpsertAll(t, rows)
    ensures var stored := UpsertAll(t, rows)[k];
            && stored.key == k && stored.slot == rows[last].slot && stored.columns == rows[last].columns
            && stored.createdAt == if k in t then t[k].createdAt else rows[first].createdAt
  {
    UpsertAllAt(t, rows, k);
    LastRowAt(rows, k, last);
    FirstRowAt(rows, k, first);
  }

  /** Its quote decimals are those of its last row that carries any: a later row without them does
      not erase them. If none carries any, those stored before stay. */
  lemma {:induction false} DecimalsStoredAt(t: Table, rows: seq<TradeRow>, k: RowKey)
    requires Mentions(rows, k)
    ensures k in UpsertAll(t, rows)
    ensures forall i: nat :: LastCarrying(rows, k, i) ==> UpsertAll(t, rows)[k].quoteDecimals == rows[i].quoteDecimals
    ensures (forall r :: r in rows && r.key == k ==> r.quoteDecimals.None?) ==>
              UpsertAll(t, rows)[k].quoteDecimals == if k in t then t[k].quoteDecimals else None
  {
    UpsertAllAt(t, rows, k);
    forall i: nat | LastCarrying(rows, k, i) ensures UpsertAll(t, rows)[k].quoteDecimals == rows[i].quoteDecimals {
      LastDecimalsAt(rows, k, i);
    }
    if forall r :: r in rows && r.key == k ==> r.quoteDecimals.None? {
      NoDecimalsAnywhere(rows, k);
    }
  }

  /** A key no row mentions keeps what it had. */
  lemma {:induction false} OthersUntouched(t: Table, rows: seq<TradeRow>, k: RowKey)
    requires forall r :: r in rows ==> r.key != k
    ensures k in UpsertAll(t, rows) <==> k in t
    ensures k in t ==> UpsertAll(t, rows)[k] == t[k]
  {
    UpsertAllAt(t, rows, k);
  }

  /** The batch keeps one row per key, in the order the keys first appear, each the key's last. */
  lemma {:induction false} CoalescedByPosition(unique: seq<TradeRow>, rows: seq<TradeRow>)
    requires IsCoalesced(unique, rows)
    ensures forall i :: 0 <= i < |unique| ==>
              exists last: nat :: LastOfKey(rows, unique[i].key, last) && unique[i] == rows[last]
    ensures forall r :: r in rows ==> exists i :: 0 <= i < |unique| && unique[i].key == r.key
    ensures forall i, j, a, b ::
              0 <= i < j < |unique| && FirstOfKey(rows, unique[i].key, a) && FirstOfKey(rows, unique[j].key, b) ==>
                a < b
  {
    var keys := FirstKeys(rows);
    forall i | 0 <= i < |unique|
      ensures unique[i].key == keys[i]
      ensures exists last: nat :: LastOfKey(rows, unique[i].key, last) && unique[i] == rows[last]
    {
      LastRowHasKey(rows, keys[i]);
      var last := LastPosition(rows, keys[i]);
      LastRowAt(rows, keys[i], last);
    }
    forall r | r in rows ensures exists i :: 0 <= i < |unique| && unique[i].key == r.key {
      FirstKeysAreMentioned(rows, r.key);
      var i :| 0 <= i < |keys| && keys[i] == r.key;
      assert unique[i].key == r.key;
    }
    forall i, j, a, b
      | 0 <= i < j < |unique| && FirstOfKey(rows, unique[i].key, a) && FirstOfKey(rows, unique[j].key, b)
      ensures a < b
    {
      FirstKeysAscend(rows, i, j, a, b);
    }
  }

  lemma {:induction false} LastPosition(rows: seq<TradeRow>, k: RowKey) returns (last: nat)
    requires Mentions(rows, k)
    ensures LastOfKey(rows, k, last)
  {
    MentionedEarlier(rows, k);
    last := |rows| - 1;
    if rows[last].key != k {
      last := LastPosition(rows[..last], k);
    }
  }

  lemma {:induction false} FirstKeysAscend(rows: seq<TradeRow>, i: nat, j: nat, a: nat, b: nat)
    requires i < j < |FirstKeys(rows)|
    requires FirstOfKey(rows, FirstKeys(rows)[i], a) && FirstOfKey(rows, FirstKeys(rows)[j], b)
    ensures a < b
  {
    var init, keys := rows[..|rows| - 1], FirstKeys(rows[..|rows| - 1]);
    if b < |rows| - 1 {
      FirstKeysAreMentioned(init, FirstKeys(rows)[j]);
      assert init[b] in init;
      if a < |rows| - 1 {
        FirstKeysDistinct(rows);
        FirstKeysAscend(init, i, j, a, b);
      } else {
        FirstKeysAreMentioned(init, keys[i]);
      }
    } else {
      FirstKeysAreMentioned(init, FirstKeys(rows)[i]);
    }
  }
}
