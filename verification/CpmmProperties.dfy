/** Sorting recovers execution order, and every accepted swap is paired with its own event. */
module CpmmProperties {
  import opened Prelude
  import opened Bytes
  import opened CallTree
  import opened Routes
  import opened Cpmm
  import opened CpmmHandler
  import opened CpmmMatching
  import Amm = AmmHandler
  import AmmProperties

  // ----- sorting is pre-order execution order -----

  /** The program's instructions in the order they start executing: each top-level call
      before everything below it, each subtree in pre-order. */
  function ExecutionOrder(tops: seq<Node>, i: nat, program: nat): seq<Call>
    decreases |tops| - i
  {
    if i >= |tops| then []
    else (if tops[i].ix.program == program then [Amm.Call(tops[i].ix, i, 0)] else [])
         + Amm.BlockCalls(Block(i, Flatten(tops[i].children, 2)), 0, program)
         + ExecutionOrder(tops, i + 1, program)
  }

  ghost predicate Ordered(calls: seq<Call>) {
    forall i, j :: 0 <= i < j < |calls| ==> Before(calls[i], calls[j])
  }

  ghost predicate SameElements(a: seq<Call>, b: seq<Call>) {
    forall c :: c in a <==> c in b
  }

  lemma {:induction false} HeadIn(s: seq<Call>)
    ensures s != [] ==> s[0] in s
  {
  }

  lemma {:induction false} OrderedUnique(a: seq<Call>, b: seq<Call>)
    requires Ordered(a) && Ordered(b) && SameElements(a, b)
    ensures a == b
  {
    HeadIn(a);
    HeadIn(b);
    if a != [] && b != [] {
      assert a[0] == b[0];
      forall c ensures c in a[1..] <==> c in b[1..] {
        assert c in a[1..] ==> c in a && c != a[0];
        assert c in b[1..] ==> c in b && c != b[0];
      }
      OrderedUnique(a[1..], b[1..]);
    }
  }

  lemma {:induction false} InsertOrdered(c: Call, sorted: seq<Call>)
    requires Ordered(sorted) && forall d :: d in sorted ==> d.outer != c.outer || d.start != c.start
    ensures Ordered(InsertCall(c, sorted))
    ensures forall d :: d in InsertCall(c, sorted) <==> d == c || d in sorted
  {
    if sorted != [] {
      assert sorted[0] in sorted;
      if Before(sorted[0], c) {
        InsertOrdered(c, sorted[1..]);
        var tail := InsertCall(c, sorted[1..]);
        forall d | d in tail ensures Before(sorted[0], d) {
          assert d == c || d in sorted[1..];
        }
      } else {
        forall d | d in sorted ensures Before(c, d) {
          assert d == sorted[0] || Before(sorted[0], d);
        }
      }
    }
  }

  lemma {:induction false} SortOrders(calls: seq<Call>)
    requires AmmProperties.CallsDistinct(calls)
    ensures Ordered(SortCalls(calls)) && SameElements(SortCalls(calls), calls)
  {
    if calls != [] {
      SortOrders(calls[1..]);
      forall d | d in SortCalls(calls[1..]) ensures d.outer != calls[0].outer || d.start != calls[0].start {
        assert d in calls[1..];
      }
      InsertOrdered(calls[0], SortCalls(calls[1..]));
    }
  }

  // Membership in the lists the collector builds.

  ghost predicate TopCall(instrs: seq<Ix>, program: nat, c: Call) {
    c.start == 0 && c.outer < |instrs| && c.ix == instrs[c.outer] && c.ix.program == program
  }

  ghost predicate CallInBlock(b: Block, program: nat, c: Call) {
    && c.outer == b.index && 0 < c.start <= |b.instrs|
    && c.ix == b.instrs[c.start - 1].ix && c.ix.program == program
  }

  lemma {:induction false} TopMembers(instrs: seq<Ix>, at: nat, program: nat, c: Call)
    ensures c in Amm.TopCalls(instrs, at, program) <==> TopCall(instrs, program, c) && c.outer >= at
    decreases |instrs| - at
  {
    if at < |instrs| {
      TopMembers(instrs, at + 1, program, c);
    }
  }

  lemma {:induction false} BlockMembers(b: Block, at: nat, program: nat, c: Call)
    ensures c in Amm.BlockCalls(b, at, program) <==> CallInBlock(b, program, c) && c.start > at
    decreases |b.instrs| - at
  {
    if at < |b.instrs| {
      BlockMembers(b, at + 1, program, c);
    }
  }

  lemma {:induction false} InnerMembers(blocks: seq<Block>, at: nat, program: nat, c: Call)
    ensures c in Amm.InnerCalls(blocks, at, program) <==>
              exists k :: at <= k < |blocks| && CallInBlock(blocks[k], program, c)
    decreases |blocks| - at
  {
    if at < |blocks| {
      BlockMembers(blocks[at], 0, program, c);
      InnerMembers(blocks, at + 1, program, c);
    }
  }

  ghost predicate Executes(tops: seq<Node>, program: nat, c: Call) {
    c.outer < |tops| &&
    if c.start == 0 then c.ix == tops[c.outer].ix && c.ix.program == program
    else CallInBlock(Block(c.outer, Flatten(tops[c.outer].children, 2)), program, c)
  }

  lemma {:induction false} ExecutionMembers(tops: seq<Node>, i: nat, program: nat, c: Call)
    ensures c in ExecutionOrder(tops, i, program) <==> Executes(tops, program, c) && c.outer >= i
    decreases |tops| - i
  {
    if i < |tops| {
      var b := Block(i, Flatten(tops[i].children, 2));
      var top := if tops[i].ix.program == program then [Amm.Call(tops[i].ix, i, 0)] else [];
      BlockMembers(b, 0, program, c);
      ExecutionMembers(tops, i + 1, program, c);
      assert c in ExecutionOrder(tops, i, program)
        <==> c in top || c in Amm.BlockCalls(b, 0, program) || c in ExecutionOrder(tops, i + 1, program);
    }
  }

  lemma {:induction false} BlockOrdered(b: Block, at: nat, program: nat)
    ensures Ordered(Amm.BlockCalls(b, at, program))
    decreases |b.instrs| - at
  {
    if at < |b.instrs| {
      BlockOrdered(b, at + 1, program);
      forall c | c in Amm.BlockCalls(b, at + 1, program) ensures c.outer == b.index && c.start > at + 1 {
        BlockMembers(b, at + 1, program, c);
      }
    }
  }

  lemma {:induction false} OrderedAppend(a: seq<Call>, b: seq<Call>)
    requires Ordered(a) && Ordered(b) && forall x, y :: x in a && y in b ==> Before(x, y)
    ensures Ordered(a + b)
  {
    var all := a + b;
    forall i, j | 0 <= i < j < |all| ensures Before(all[i], all[j]) {
      if i < |a| <= j {
        assert all[i] in a && all[j] in b;
      }
    }
  }

  lemma {:induction false} ExecutionOrdered(tops: seq<Node>, i: nat, program: nat)
    ensures Ordered(ExecutionOrder(tops, i, program))
    decreases |tops| - i
  {
    if i < |tops| {
      var b := Block(i, Flatten(tops[i].children, 2));
      var top := if tops[i].ix.program == program then [Amm.Call(tops[i].ix, i, 0)] else [];
      var inner, rest := Amm.BlockCalls(b, 0, program), ExecutionOrder(tops, i + 1, program);
      BlockOrdered(b, 0, program);
      forall c | c in inner ensures c.outer == i && c.start > 0 {
        BlockMembers(b, 0, program, c);
      }
      OrderedAppend(top, inner);
      ExecutionOrdered(tops, i + 1, program);
      forall c | c in rest ensures c.outer > i {
        ExecutionMembers(tops, i + 1, program, c);
      }
      OrderedAppend(top + inner, rest);
    }
  }

  lemma {:induction false} CallSetsAgree(tx: Amm.Tx, tops: seq<Node>, program: nat, c: Call)
    requires Recorded(tx.blocks, tops) && |tx.instrs| == |tops|
    requires forall i :: 0 <= i < |tops| ==> tx.instrs[i] == tops[i].ix
    ensures c in Amm.TopCalls(tx.instrs, 0, program) + Amm.InnerCalls(tx.blocks, 0, program)
         <==> c in ExecutionOrder(tops, 0, program)
  {
    TopMembers(tx.instrs, 0, program, c);
    InnerMembers(tx.blocks, 0, program, c);
    ExecutionMembers(tops, 0, program, c);
    if c.start > 0 && Executes(tops, program, c) {
      assert tops[c.outer].children != [];
      assert HasBlock(tx.blocks, c.outer);
      var b :| b in tx.blocks && b.index == c.outer;
      var k :| 0 <= k < |tx.blocks| && tx.blocks[k] == b;
      assert CallInBlock(tx.blocks[k], program, c);
    }
    if k :| 0 <= k < |tx.blocks| && CallInBlock(tx.blocks[k], program, c) {
      assert tx.blocks[k] in tx.blocks;
      assert tx.blocks[k] == Block(c.outer, Flatten(tops[c.outer].children, 2));
    }
  }

  /** Sorting the collected instructions by (outer, inner) lists them in the order in which
      the transaction executed them, whatever order the blocks came in. */
  lemma {:induction false} SortingIsExecutionOrder(tx: Amm.Tx, program: Key, tops: seq<Node>)
    requires Recorded(tx.blocks, tops) && |tx.instrs| == |tops|
    requires forall i :: 0 <= i < |tops| ==> tx.instrs[i] == tops[i].ix
    requires Amm.ProgramIndex(tx.accounts, program).Some?
    ensures SortCalls(Amm.ProgramCalls(tx, program))
         == ExecutionOrder(tops, 0, Amm.ProgramIndex(tx.accounts, program).value)
  {
    var index := Amm.ProgramIndex(tx.accounts, program).value;
    var top, inner := Amm.TopCalls(tx.instrs, 0, index), Amm.InnerCalls(tx.blocks, 0, index);
    AmmProperties.TopCallsDistinct(tx.instrs, 0, index);
    AmmProperties.InnerCallsDistinct(tx.blocks, 0, index);
    AmmProperties.CallsDistinctAppend(top, inner);
    SortOrders(top + inner);
    ExecutionOrdered(tops, 0, index);
    forall c ensures c in SortCalls(top + inner) <==> c in ExecutionOrder(tops, 0, index) {
      CallSetsAgree(tx, tops, index, c);
    }
    OrderedUnique(SortCalls(top + inner), ExecutionOrder(tops, 0, index));
  }

  // ----- every accepted swap gets its own event -----

  /** The pool of every accepted swap; None for everything else. */
  function AcceptedPools(seen: seq<Context>, tx: Amm.Tx, calls: seq<Call>): (pools: seq<Option<Key>>)
    requires |seen| == |calls|
    ensures |pools| == |calls|
  {
    if calls == [] then []
    else [AcceptedPool(seen[0], tx, calls[0])] + AcceptedPools(seen[1..], tx, calls[1..])
  }

  function AcceptedPool(ctx: Context, tx: Amm.Tx, call: Call): Option<Key> {
    var accepted := Accept(ctx, tx, call);
    if accepted.Some? then Some(accepted.value.pool) else None
  }

  lemma {:induction false} AcceptedPoolsAt(seen: seq<Context>, tx: Amm.Tx, calls: seq<Call>, k: nat)
    requires |seen| == |calls| && k < |calls|
    ensures AcceptedPools(seen, tx, calls)[k] == AcceptedPool(seen[k], tx, calls[k])
  {
    if k > 0 {
      AcceptedPoolsAt(seen[1..], tx, calls[1..], k - 1);
    }
  }

  /** The fills when every accepted swap is given the event it left itself, if any. */
  function OwnFills(seen: seq<Context>, t: CpmmTx, calls: seq<Call>, logged: seq<Option<SwapEvent>>): seq<AltFill>
    requires |seen| == |logged| == |calls|
  {
    if calls == [] then []
    else
      var accepted := Accept(seen[0], t.tx, calls[0]);
      (if accepted.None? then [] else [FillOf(t, calls[0], accepted.value, logged[0])])
      + OwnFills(seen[1..], t, calls[1..], logged[1..])
  }

  /** The handler's fills depend on the events its accepted swaps take. */
  lemma {:induction false} FillsOfTaken(seen: seq<Context>, t: CpmmTx, calls: seq<Call>,
                                        logged: seq<Option<SwapEvent>>, events: seq<SwapEvent>)
    requires |seen| == |logged| == |calls|
    requires Taking(AcceptedPools(seen, t.tx, calls), events) == Left(AcceptedPools(seen, t.tx, calls), logged)
    ensures AltFills(seen, t, calls, events) == OwnFills(seen, t, calls, logged)
    decreases calls
  {
    if calls != [] {
      var pool, rest := AcceptedPool(seen[0], t.tx, calls[0]), AcceptedPools(seen[1..], t.tx, calls[1..]);
      assert AcceptedPools(seen, t.tx, calls)[1..] == rest;
      if pool.None? {
        FillsOfTaken(seen[1..], t, calls[1..], logged[1..], events);
      } else {
        var remaining := Remaining(events, pool.value);
        SameHead(Taken(events, pool.value), Taking(rest, remaining), logged[0], Left(rest, logged[1..]));
        FillsOfTaken(seen[1..], t, calls[1..], logged[1..], remaining);
      }
    }
  }

  /** `logged[k]` is the event of instruction k, a swap, and names the swap's pool. */
  ghost predicate NamesPools(tx: Amm.Tx, calls: seq<Call>, logged: seq<Option<SwapEvent>>) {
    && |logged| == |calls|
    && forall k :: 0 <= k < |calls| && logged[k].Some? ==>
         IsSwap(calls[k]) && ResolveAccount(calls[k].ix, tx.accounts, POOL_STATE_POS) == Some(logged[k].value.pool)
  }

  /** The log holds the events of the swaps among the first `cut` instructions: all of them, or
      as many as fit before the log was truncated. */
  ghost predicate CutAt(calls: seq<Call>, logged: seq<Option<SwapEvent>>, cut: nat)
    requires |logged| == |calls|
  {
    forall k :: 0 <= k < |calls| ==> (logged[k].Some? <==> IsSwap(calls[k]) && k < cut)
  }

  /** Instruction `i` is rejected, has its event in the log, and that event names the pool of the
      accepted instruction `j`. */
  ghost predicate Rejects(seen: seq<Context>, tx: Amm.Tx, calls: seq<Call>, logged: seq<Option<SwapEvent>>, i: nat,
                          j: nat)
    requires |seen| == |logged| == |calls| && i < |calls| && j < |calls|
  {
    && logged[i].Some? && AcceptedPool(seen[i], tx, calls[i]).None?
    && AcceptedPool(seen[j], tx, calls[j]) == Some(logged[i].value.pool)
  }

  /** No rejected swap whose event is in the log comes before an accepted swap on its pool. */
  ghost predicate NoRejectedBefore(seen: seq<Context>, tx: Amm.Tx, calls: seq<Call>, logged: seq<Option<SwapEvent>>)
    requires |seen| == |logged| == |calls|
  {
    forall i, j :: 0 <= i < j < |calls| ==> !Rejects(seen, tx, calls, logged, i, j)
  }

  lemma {:induction false} NamedPoolsConsistent(seen: seq<Context>, tx: Amm.Tx, calls: seq<Call>,
                                                logged: seq<Option<SwapEvent>>)
    requires |seen| == |calls| && NamesPools(tx, calls, logged)
    ensures Consistent(AcceptedPools(seen, tx, calls), logged)
  {
    forall k | 0 <= k < |calls| ensures AcceptedPools(seen, tx, calls)[k] == AcceptedPool(seen[k], tx, calls[k]) {
      AcceptedPoolsAt(seen, tx, calls, k);
    }
  }

  /** In a log cut at one point, only rejected swaps can disturb a later one. */
  lemma {:induction false} CutUndisturbedIff(seen: seq<Context>, tx: Amm.Tx, calls: seq<Call>,
                                             logged: seq<Option<SwapEvent>>, cut: nat)
    requires |seen| == |calls| && NamesPools(tx, calls, logged) && CutAt(calls, logged, cut)
    ensures Undisturbed(AcceptedPools(seen, tx, calls), logged) <==> NoRejectedBefore(seen, tx, calls, logged)
  {
    var pools := AcceptedPools(seen, tx, calls);
    forall k | 0 <= k < |calls|
      ensures pools[k] == AcceptedPool(seen[k], tx, calls[k]) && (pools[k].Some? ==> IsSwap(calls[k]))
    {
      AcceptedPoolsAt(seen, tx, calls, k);
    }
    forall i, j | 0 <= i < j < |calls|
      ensures Disturbs(pools[i], logged[i], pools[j], logged[j]) <==> Rejects(seen, tx, calls, logged, i, j)
    {
    }
    if NoRejectedBefore(seen, tx, calls, logged) {
      forall i, j | 0 <= i < j < |calls| ensures !Disturbs(pools[i], logged[i], pools[j], logged[j]) {
        assert !Rejects(seen, tx, calls, logged, i, j);
      }
    }
    if Undisturbed(pools, logged) {
      forall i, j | 0 <= i < j < |calls| ensures !Rejects(seen, tx, calls, logged, i, j) {
        assert !Disturbs(pools[i], logged[i], pools[j], logged[j]);
      }
    }
  }

  /** The program's instructions in execution order. */
  ghost function ExecutedCalls(program: Key, tx: Amm.Tx, tops: seq<Node>): seq<Call>
    requires Amm.ProgramIndex(tx.accounts, program).Some?
  {
    ExecutionOrder(tops, 0, Amm.ProgramIndex(tx.accounts, program).value)
  }

  /** The log carries exactly these events, in this order, among payloads that are no swap events. */
  ghost predicate LogCarries(logs: seq<seq<byte>>, events: seq<SwapEvent>) {
    if logs == [] then events == []
    else if OtherPayload(logs[0]) then LogCarries(logs[1..], events)
    else events != [] && logs[0] == SWAP_EVENT_DISC + Body(events[0]) && LogCarries(logs[1..], events[1..])
  }

  predicate OtherPayload(data: seq<byte>) {
    |data| != 170 || data[..8] != SWAP_EVENT_DISC
  }

  /** Such a log is decoded to its events, in the order they were logged. */
  lemma {:induction false} LogDecoded(logs: seq<seq<byte>>, events: seq<SwapEvent>)
    requires LogCarries(logs, events)
    ensures LogEvents(logs) == events
  {
    if logs != [] {
      if OtherPayload(logs[0]) {
        LogDecoded(logs[1..], events);
      } else {
        ParseRoundTrip(events[0], []);
        LogDecoded(logs[1..], events[1..]);
      }
    }
  }

  /** The transaction executed `tops`, its log holds `logged`, cut at `cut`, and `seen` is what the
      lookups of every instruction found. */
  ghost predicate LoggedRun(program: Key, seen: seq<Context>, t: CpmmTx, tops: seq<Node>,
                            logged: seq<Option<SwapEvent>>, cut: nat)
  {
    && Recorded(t.tx.blocks, tops) && |t.tx.instrs| == |tops|
    && (forall i :: 0 <= i < |tops| ==> t.tx.instrs[i] == tops[i].ix)
    && Amm.ProgramIndex(t.tx.accounts, program).Some?
    && |seen| == |ExecutedCalls(program, t.tx, tops)|
    && NamesPools(t.tx, ExecutedCalls(program, t.tx, tops), logged)
    && CutAt(ExecutedCalls(program, t.tx, tops), logged, cut)
    && LogCarries(t.logs, LogOf(logged))
  }

  /** When no rejected swap comes before an accepted one on its pool, the handler records every
      accepted swap from its own event, although events of other pools stay in the log; a swap
      whose event was cut off takes no other swap's event. */
  lemma {:induction false} EverySwapGetsItsOwnEvent(program: Key, seen: seq<Context>, t: CpmmTx, tops: seq<Node>,
                                                    logged: seq<Option<SwapEvent>>, cut: nat)
    requires LoggedRun(program, seen, t, tops, logged, cut)
    requires NoRejectedBefore(seen, t.tx, ExecutedCalls(program, t.tx, tops), logged)
    ensures SortCalls(Amm.ProgramCalls(t.tx, program)) == ExecutedCalls(program, t.tx, tops)
    ensures AltFills(seen, t, ExecutedCalls(program, t.tx, tops), LogEvents(t.logs))
         == OwnFills(seen, t, ExecutedCalls(program, t.tx, tops), logged)
  {
    var executed := ExecutedCalls(program, t.tx, tops);
    var nothing: seq<SwapEvent> := [];
    SortingIsExecutionOrder(t.tx, program, tops);
    LogDecoded(t.logs, LogOf(logged));
    NamedPoolsConsistent(seen, t.tx, executed, logged);
    CutUndisturbedIff(seen, t.tx, executed, logged, cut);
    OwnTaken(AcceptedPools(seen, t.tx, executed), logged, nothing);
    assert nothing + LogOf(logged) == LogOf(logged);
    FillsOfTaken(seen, t, executed, logged, LogEvents(t.logs));
  }

  /** With distinct events the condition is exact: the events taken are the swaps' own exactly
      when no rejected swap comes before an accepted one on its pool. */
  lemma {:induction false} OwnEventsIff(program: Key, seen: seq<Context>, t: CpmmTx, tops: seq<Node>,
                                        logged: seq<Option<SwapEvent>>, cut: nat)
    requires LoggedRun(program, seen, t, tops, logged, cut) && DistinctEvents(logged)
    ensures SortCalls(Amm.ProgramCalls(t.tx, program)) == ExecutedCalls(program, t.tx, tops)
    ensures var pools := AcceptedPools(seen, t.tx, ExecutedCalls(program, t.tx, tops));
            Taking(pools, LogEvents(t.logs)) == Left(pools, logged)
            <==> NoRejectedBefore(seen, t.tx, ExecutedCalls(program, t.tx, tops), logged)
  {
    var executed := ExecutedCalls(program, t.tx, tops);
    SortingIsExecutionOrder(t.tx, program, tops);
    LogDecoded(t.logs, LogOf(logged));
    NamedPoolsConsistent(seen, t.tx, executed, logged);
    CutUndisturbedIff(seen, t.tx, executed, logged, cut);
    OwnTakenIff(AcceptedPools(seen, t.tx, executed), logged);
  }

  // ----- what rejects a swap on an accepted pool -----

  /** Acceptance that depends on the pool only is enough. */
  lemma {:induction false} PoolOnlyAcceptance(seen: seq<Context>, tx: Amm.Tx, calls: seq<Call>,
                                              logged: seq<Option<SwapEvent>>, pools: set<Key>)
    requires |seen| == |logged| == |calls|
    requires forall k :: 0 <= k < |calls| && AcceptedPool(seen[k], tx, calls[k]).Some? ==>
               AcceptedPool(seen[k], tx, calls[k]).value in pools
    requires forall k :: 0 <= k < |calls| && logged[k].Some? && logged[k].value.pool in pools ==>
               AcceptedPool(seen[k], tx, calls[k]).Some?
    ensures NoRejectedBefore(seen, tx, calls, logged)
  {
    forall i, j | 0 <= i < j < |calls| ensures !Rejects(seen, tx, calls, logged, i, j) {
    }
  }

  /** What a swap's accounts say about its pool: configuration and the two mints. */
  ghost predicate Names(tx: Amm.Tx, call: Call, config: Key, input: Key, output: Key) {
    && IsSwap(call) && |call.ix.accounts| >= MIN_ACCOUNTS
    && ResolveAccount(call.ix, tx.accounts, AMM_CONFIG_POS) == Some(config)
    && ResolveAccount(call.ix, tx.accounts, INPUT_MINT_POS) == Some(input)
    && ResolveAccount(call.ix, tx.accounts, OUTPUT_MINT_POS) == Some(output)
  }

  /** The chain ties a pool to one configuration and one pair of mints: two swaps of a pool name
      the same ones, in the same order or turned round. */
  ghost predicate OnePairPerPool(tx: Amm.Tx, a: Call, b: Call) {
    ResolveAccount(a.ix, tx.accounts, POOL_STATE_POS) == ResolveAccount(b.ix, tx.accounts, POOL_STATE_POS) ==>
      exists config: Key, x: Key, y: Key ::
        Names(tx, a, config, x, y) && (Names(tx, b, config, x, y) || Names(tx, b, config, y, x))
  }

  lemma {:induction false} LexOneWay(a: seq<byte>, b: seq<byte>)
    requires a != b
    ensures LexLess(a, b) <==> !LexLess(b, a)
  {
    if a != [] && b != [] && a[0] == b[0] {
      assert a == [a[0]] + a[1..] && b == [b[0]] + b[1..];
      LexOneWay(a[1..], b[1..]);
    }
  }

  /** With one table of tracked mints, either both of two swaps on a pool are accepted or none. */
  lemma {:induction false} SamePoolSameAnswer(ctx: Context, tx: Amm.Tx, a: Call, b: Call)
    requires OnePairPerPool(tx, a, b) && AcceptedPool(ctx, tx, b).Some?
    requires ResolveAccount(a.ix, tx.accounts, POOL_STATE_POS) == AcceptedPool(ctx, tx, b)
    ensures AcceptedPool(ctx, tx, a) == AcceptedPool(ctx, tx, b)
  {
    var config: Key, x: Key, y: Key :|
      Names(tx, a, config, x, y) && (Names(tx, b, config, x, y) || Names(tx, b, config, y, x));
    LexOneWay(x, y);
  }

  /** So as long as the table is not refreshed between two swaps of the transaction, no swap is
      rejected before an accepted one on its pool. */
  lemma {:induction false} FixedTableRejectsNone(ctx: Context, seen: seq<Context>, tx: Amm.Tx, calls: seq<Call>,
                                                 logged: seq<Option<SwapEvent>>)
    requires |seen| == |calls| && NamesPools(tx, calls, logged)
    requires forall k :: 0 <= k < |calls| ==> seen[k] == ctx
    requires forall i, j :: 0 <= i < j < |calls| && IsSwap(calls[i]) && IsSwap(calls[j]) ==>
               OnePairPerPool(tx, calls[i], calls[j])
    ensures NoRejectedBefore(seen, tx, calls, logged)
  {
    forall i, j | 0 <= i < j < |calls| ensures !Rejects(seen, tx, calls, logged, i, j) {
      if Rejects(seen, tx, calls, logged, i, j) {
        SamePoolSameAnswer(ctx, tx, calls[i], calls[j]);
        assert false;
      }
    }
  }

  /** A refresh between two swaps can do it: the first swap on the pool is rejected, the second
      accepted under the new table, and recorded with the first one's amounts. */
  lemma {:induction false} RejectedSwapShiftsEvents(stale: Context, updated: Context, t: CpmmTx, first: Call,
                                                    second: Call, e1: SwapEvent, e2: SwapEvent)
    requires t.tx.success
    requires NamesPools(t.tx, [first, second], [Some(e1), Some(e2)]) && e1.pool == e2.pool && e1 != e2
    requires Accept(stale, t.tx, first).None? && Accept(updated, t.tx, second).Some?
    requires var a := Accept(updated, t.tx, second).value; {e1.inputMint, e1.outputMint} == {a.inputMint, a.outputMint}
    ensures var pools := AcceptedPools([stale, updated], t.tx, [first, second]);
            Left(pools, [Some(e1), Some(e2)]) == [Some(e2)] && Taking(pools, [e1, e2]) == [Some(e1)]
    ensures var fills := AltFills([stale, updated], t, [first, second], [e1, e2]);
            && |fills| == 1 && fills[0].source == FromLog
            && (fills[0].isBuy <==> e1.outputMint == fills[0].mint)
            && fills[0].token == (if fills[0].isBuy then e1.outputAmount else e1.inputAmount)
            && fills[0].quote == if fills[0].isBuy then e1.inputAmount else e1.outputAmount
  {
    var seen, calls, events := [stale, updated], [first, second], [e1, e2];
    var logged: seq<Option<SwapEvent>>, pools := [Some(e1), Some(e2)], AcceptedPools(seen, t.tx, calls);
    assert logged[1].Some? && IsSwap(calls[1]);
    AcceptedPoolsAt(seen, t.tx, calls, 0);
    AcceptedPoolsAt(seen, t.tx, calls, 1);
    ShiftedPair(pools, e1, e2);
    SecondOnly(stale, updated, t, first, second, events);
    AcceptedLegs(updated, t.tx, second);
    FillFromLog(t, second, Accept(updated, t.tx, second).value, e1);
  }

  lemma {:induction false} FillFromLog(t: CpmmTx, call: Call, a: Accepted, e: SwapEvent)
    requires t.tx.success && |call.ix.data| >= 8 && a.mint in {e.inputMint, e.outputMint}
    requires e.inputMint != e.outputMint
    ensures var fill := FillOf(t, call, a, Some(e));
            && fill.source == FromLog && fill.mint == a.mint && (fill.isBuy <==> e.outputMint == a.mint)
            && fill.token == (if fill.isBuy then e.outputAmount else e.inputAmount)
            && fill.quote == if fill.isBuy then e.inputAmount else e.outputAmount
  {
  }

  lemma {:induction false} SecondOnly(stale: Context, updated: Context, t: CpmmTx, first: Call, second: Call,
                                      events: seq<SwapEvent>)
    requires Accept(stale, t.tx, first).None? && Accept(updated, t.tx, second).Some?
    ensures var a := Accept(updated, t.tx, second).value;
            AltFills([stale, updated], t, [first, second], events) == [FillOf(t, second, a, Taken(events, a.pool))]
  {
    var seen, calls := [stale, updated], [first, second];
    assert calls[1..] == [second] && calls[1..][1..] == [] && seen[1..] == [updated] && seen[1..][1..] == [];
    var left := Remaining(events, Accept(updated, t.tx, second).value.pool);
    assert AltFills(seen[1..][1..], t, calls[1..][1..], left) == [];
  }

  // ----- the three sources of amounts agree on the legs -----

  lemma {:induction false} AcceptedLegs(ctx: Context, tx: Amm.Tx, call: Call)
    requires Accept(ctx, tx, call).Some?
    ensures var a := Accept(ctx, tx, call).value;
            && |call.ix.data| >= 8 && a.inputMint != a.outputMint
            && a.mint == (if a.baseIsInput then a.inputMint else a.outputMint)
            && a.quoteMint == if a.baseIsInput then a.outputMint else a.inputMint
  {
  }

  /** An executed swap recorded from its event and the same swap failed, recorded from its
      arguments, have the same side, and put input and output on the same legs. */
  lemma {:induction false} EventAndRequestAgree(ctx: Context, t: CpmmTx, failed: CpmmTx, call: Call, e: SwapEvent,
                                                input: u64, output: u64)
    requires t.tx.success && !failed.tx.success && Accept(ctx, t.tx, call).Some?
    requires U64At(call.ix.data, 8) == Some(input) && U64At(call.ix.data, 16) == Some(output)
    requires var a := Accept(ctx, t.tx, call).value; e.inputMint == a.inputMint && e.outputMint == a.outputMint
    ensures var a := Accept(ctx, t.tx, call).value;
            && |call.ix.data| >= 8
            && var executed, requested := FillOf(t, call, a, Some(e)), FillOf(failed, call, a, None);
            && executed.source == FromLog && requested.source == InstructionRequest
            && executed.isBuy == requested.isBuy == !a.baseIsInput && executed.exactIn == requested.exactIn
            && (if a.baseIsInput then (executed.token, executed.quote) else (executed.quote, executed.token))
               == (e.inputAmount, e.outputAmount)
            && (if a.baseIsInput then (requested.token, requested.quote) else (requested.quote, requested.token))
               == (input, output)
  {
    AcceptedLegs(ctx, t.tx, call);
  }

  /** The fill of a vault-rebuilt swap is the tracked coin's side of the rebuilt event. */
  lemma {:induction false} VaultFill(ctx: Context, t: CpmmTx, call: Call)
    requires t.tx.success && Accept(ctx, t.tx, call).Some?
    requires SelfCpiEvent(t.tx, call) == None && VaultEvent(t, call, Accept(ctx, t.tx, call).value).Some?
    ensures var a := Accept(ctx, t.tx, call).value;
            var side := ResolveSide(VaultEvent(t, call, a).value, a.mint);
            && |call.ix.data| >= 8
            && var fill := FillOf(t, call, a, None);
            side.Some? ==>
              && fill.source == FromVaults && fill.isBuy == side.value.isBuy
              && fill.token == side.value.baseAmount && fill.quote == side.value.quoteAmount
              && fill.reserves == Some((side.value.baseReserveAfter, side.value.quoteReserveAfter))
              && fill.fees == Some((side.value.baseTransferFee, VaultEvent(t, call, a).value.tradeFee,
                                    VaultEvent(t, call, a).value.creatorFee))
              && fill.marketCap
                 == Some(MarketCap(side.value.quoteReserveAfter, side.value.baseReserveAfter, a.info.supply))
  {
    AcceptedLegs(ctx, t.tx, call);
  }

  /** Without a logged or self-CPI event a swap is recorded from the vaults: its reserves are
      their two post balances, its amounts what moved, and its cap the exact floor over them. */
  lemma {:induction false} VaultFallback(ctx: Context, t: CpmmTx, call: Call)
    requires t.tx.success && Accept(ctx, t.tx, call).Some?
    requires SelfCpiEvent(t.tx, call) == None && VaultEvent(t, call, Accept(ctx, t.tx, call).value).Some?
    ensures var a := Accept(ctx, t.tx, call).value;
            var vaultIn, vaultOut := VaultIndex(t.tx, call, INPUT_VAULT_POS), VaultIndex(t.tx, call, OUTPUT_VAULT_POS);
            && |call.ix.data| >= 8 && vaultIn.Some? && vaultOut.Some?
            && AmountOf(t.post, vaultIn.value).Some? && AmountOf(t.post, vaultOut.value).Some?
            && var postIn, postOut := AmountOf(t.post, vaultIn.value).value, AmountOf(t.post, vaultOut.value).value;
            && var fill := FillOf(t, call, a, None);
            && fill.source == FromVaults && fill.isBuy == !a.baseIsInput
            && var base, quote := if a.baseIsInput then postIn else postOut, if a.baseIsInput then postOut else postIn;
            && fill.reserves == Some((base, quote))
            && fill.marketCap == Some(if base == 0 then 0 else Clamp(quote * a.info.supply / base, 0, U64_MAX))
            && AmountOf(t.pre, vaultIn.value) == Some(postIn - if a.baseIsInput then fill.token else fill.quote)
            && AmountOf(t.pre, vaultOut.value) == Some(postOut + if a.baseIsInput then fill.quote else fill.token)
            && fill.fees == Some((0, 0, 0))
  {
    AcceptedLegs(ctx, t.tx, call);
    VaultFill(ctx, t, call);
    var a := Accept(ctx, t.tx, call).value;
    RebuiltSwapSides(t.pre, t.post, a.pool, VaultIndex(t.tx, call, INPUT_VAULT_POS).value,
                     VaultIndex(t.tx, call, OUTPUT_VAULT_POS).value, a.inputMint, a.outputMint);
  }
}
