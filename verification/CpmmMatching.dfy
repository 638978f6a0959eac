/** Pairing swaps with logged events by "first event of the pool, then remove it"
    (src/handler/cpmm_handler.rs), on any log: complete, cut short or with gaps. */
module CpmmMatching {
  import opened Prelude
  import opened Cpmm
  import opened CpmmHandler

  // Per instruction: the pool of an accepted swap, and the event it left in the log, if any.

  /** The events the log holds, in order. */
  function LogOf(logged: seq<Option<SwapEvent>>): seq<SwapEvent> {
    if logged == [] then []
    else (if logged[0].Some? then [logged[0].value] else []) + LogOf(logged[1..])
  }

  /** What the accepted swaps take from `events`, one after the other. */
  function Taking(pools: seq<Option<Key>>, events: seq<SwapEvent>): seq<Option<SwapEvent>>
    decreases pools
  {
    if pools == [] then []
    else if pools[0].None? then Taking(pools[1..], events)
    else [Taken(events, pools[0].value)] + Taking(pools[1..], Remaining(events, pools[0].value))
  }

  /** What they left themselves. */
  function Left(pools: seq<Option<Key>>, logged: seq<Option<SwapEvent>>): seq<Option<SwapEvent>>
    requires |pools| == |logged|
  {
    if pools == [] then []
    else (if pools[0].None? then [] else [logged[0]]) + Left(pools[1..], logged[1..])
  }

  ghost predicate Consistent(pools: seq<Option<Key>>, logged: seq<Option<SwapEvent>>) {
    && |pools| == |logged|
    && forall k :: 0 <= k < |pools| && pools[k].Some? && logged[k].Some? ==> logged[k].value.pool == pools[k].value
  }

  ghost predicate DistinctEvents(logged: seq<Option<SwapEvent>>) {
    forall i, j :: 0 <= i < j < |logged| && logged[i].Some? ==> logged[i] != logged[j]
  }

  /** An instruction disturbs a later one: a rejected swap leaves an event that the later swap
      takes, or an accepted swap without an event takes the later one's. */
  predicate Disturbs(pool: Option<Key>, left: Option<SwapEvent>, laterPool: Option<Key>, laterLeft: Option<SwapEvent>) {
    || (pool.None? && left.Some? && laterPool == Some(left.value.pool))
    || (pool.Some? && left.None? && laterLeft.Some? && laterLeft.value.pool == pool.value)
  }

  ghost predicate Undisturbed(pools: seq<Option<Key>>, logged: seq<Option<SwapEvent>>)
    requires |pools| == |logged|
  {
    forall i, j :: 0 <= i < j < |pools| ==> !Disturbs(pools[i], logged[i], pools[j], logged[j])
  }

  ghost predicate HeadDisturbsNone(pools: seq<Option<Key>>, logged: seq<Option<SwapEvent>>)
    requires |pools| == |logged| && pools != []
  {
    forall j :: 0 <= j < |pools| - 1 ==> !Disturbs(pools[0], logged[0], pools[1..][j], logged[1..][j])
  }

  lemma {:induction false} UndisturbedCons(pools: seq<Option<Key>>, logged: seq<Option<SwapEvent>>)
    requires |pools| == |logged| && pools != []
    ensures Undisturbed(pools, logged)
       <==> HeadDisturbsNone(pools, logged) && Undisturbed(pools[1..], logged[1..])
  {
    var tailPools, tailLogged := pools[1..], logged[1..];
    assert forall j :: 0 <= j < |tailPools| ==> tailPools[j] == pools[j + 1] && tailLogged[j] == logged[j + 1];
    if HeadDisturbsNone(pools, logged) && Undisturbed(tailPools, tailLogged) {
      forall i, j | 0 <= i < j < |pools| ensures !Disturbs(pools[i], logged[i], pools[j], logged[j]) {
        assert pools[j] == tailPools[j - 1] && logged[j] == tailLogged[j - 1];
        if i > 0 {
          assert !Disturbs(tailPools[i - 1], tailLogged[i - 1], tailPools[j - 1], tailLogged[j - 1]);
        }
      }
    }
    if Undisturbed(pools, logged) {
      forall i, j | 0 <= i < j < |tailPools|
        ensures !Disturbs(tailPools[i], tailLogged[i], tailPools[j], tailLogged[j])
      {
        assert !Disturbs(pools[i + 1], logged[i + 1], pools[j + 1], logged[j + 1]);
      }
    }
  }

  /** No accepted swap is on the pool of an event left behind. */
  ghost predicate Unclaimed(skipped: seq<SwapEvent>, pools: seq<Option<Key>>) {
    forall s, k :: s in skipped && 0 <= k < |pools| ==> pools[k] != Some(s.pool)
  }

  lemma {:induction false} UnclaimedCons(skipped: seq<SwapEvent>, pools: seq<Option<Key>>)
    requires pools != []
    ensures Unclaimed(skipped, pools)
       <==> (forall s :: s in skipped ==> pools[0] != Some(s.pool)) && Unclaimed(skipped, pools[1..])
  {
    assert forall k :: 0 < k < |pools| ==> pools[k] == pools[1..][k - 1];
  }

  lemma {:induction false} UnclaimedPush(skipped: seq<SwapEvent>, e: SwapEvent, pools: seq<Option<Key>>)
    ensures Unclaimed(skipped + [e], pools)
       <==> Unclaimed(skipped, pools) && forall k :: 0 <= k < |pools| ==> pools[k] != Some(e.pool)
  {
    assert forall s :: s in skipped + [e] <==> s in skipped || s == e;
  }

  // ----- one lookup -----

  lemma {:induction false} TakenBehind(skipped: seq<SwapEvent>, e: SwapEvent, rest: seq<SwapEvent>)
    requires forall s :: s in skipped ==> s.pool != e.pool
    ensures Taken(skipped + ([e] + rest), e.pool) == Some(e)
    ensures Remaining(skipped + ([e] + rest), e.pool) == skipped + rest
  {
    var events := skipped + ([e] + rest);
    var i := FindPool(events, e.pool);
    assert events[|skipped|] == e;
    assert forall k :: 0 <= k < |skipped| ==> events[k] in skipped;
    assert i == |skipped|;
    assert events[..i] == skipped && events[i + 1..] == rest;
  }

  lemma {:induction false} TakenFromSkipped(skipped: seq<SwapEvent>, rest: seq<SwapEvent>, pool: Key)
    requires exists s :: s in skipped && s.pool == pool
    ensures Taken(skipped + rest, pool).Some? && Taken(skipped + rest, pool).value in skipped
  {
    var events := skipped + rest;
    var s :| s in skipped && s.pool == pool;
    var k :| 0 <= k < |skipped| && skipped[k] == s;
    assert events[k] == s;
    assert events[FindPool(events, pool)] == skipped[FindPool(events, pool)];
  }

  lemma {:induction false} NothingTaken(events: seq<SwapEvent>, pool: Key)
    ensures Taken(events, pool).None? <==> forall e :: e in events ==> e.pool != pool
    ensures Taken(events, pool).None? ==> Remaining(events, pool) == events
  {
    var i := FindPool(events, pool);
    if i < |events| {
      assert events[i] in events;
    }
  }

  lemma {:induction false} LogMembers(logged: seq<Option<SwapEvent>>, e: SwapEvent)
    ensures e in LogOf(logged) <==> Some(e) in logged
  {
    if logged != [] {
      LogMembers(logged[1..], e);
      assert logged == [logged[0]] + logged[1..];
    }
  }

  // ----- sufficiency: an undisturbed log gives every swap its own event -----

  lemma {:induction false} TailConsistent(pools: seq<Option<Key>>, logged: seq<Option<SwapEvent>>)
    requires Consistent(pools, logged) && pools != []
    ensures Consistent(pools[1..], logged[1..])
  {
    assert forall k :: 0 <= k < |pools| - 1 ==> pools[1..][k] == pools[k + 1] && logged[1..][k] == logged[k + 1];
  }

  /** A rejected swap's event joins those left behind. */
  lemma {:induction false} EventSkipped(pools: seq<Option<Key>>, logged: seq<Option<SwapEvent>>,
                                        skipped: seq<SwapEvent>)
    requires |pools| == |logged| && pools != [] && pools[0].None? && logged[0].Some?
    ensures skipped + LogOf(logged) == (skipped + [logged[0].value]) + LogOf(logged[1..])
    ensures HeadDisturbsNone(pools, logged) && Unclaimed(skipped, pools[1..])
       <==> Unclaimed(skipped + [logged[0].value], pools[1..])
  {
    UnclaimedPush(skipped, logged[0].value, pools[1..]);
    assert forall j :: 0 <= j < |pools| - 1 ==>
      (Disturbs(pools[0], logged[0], pools[1..][j], logged[1..][j]) <==> pools[1..][j] == Some(logged[0].value.pool));
  }

  /** An accepted swap without an event takes none exactly when no event of its pool is left. */
  lemma {:induction false} MissingTakesNone(pools: seq<Option<Key>>, logged: seq<Option<SwapEvent>>,
                                            skipped: seq<SwapEvent>)
    requires |pools| == |logged| && pools != [] && pools[0].Some? && logged[0].None?
    ensures LogOf(logged) == LogOf(logged[1..])
    ensures Taken(skipped + LogOf(logged), pools[0].value).None?
       <==> HeadDisturbsNone(pools, logged) && forall s :: s in skipped ==> pools[0] != Some(s.pool)
    ensures Taken(skipped + LogOf(logged), pools[0].value).None? ==>
              Remaining(skipped + LogOf(logged), pools[0].value) == skipped + LogOf(logged[1..])
  {
    var q, rest := pools[0].value, LogOf(logged[1..]);
    assert LogOf(logged) == rest;
    NothingTaken(skipped + rest, q);
    assert forall e :: e in skipped + rest <==> e in skipped || e in rest;
    forall e ensures e in rest <==> Some(e) in logged[1..] {
      LogMembers(logged[1..], e);
    }
    assert forall j :: 0 <= j < |pools| - 1 ==>
      (Disturbs(pools[0], logged[0], pools[1..][j], logged[1..][j])
       <==> logged[1..][j].Some? && logged[1..][j].value.pool == q);
    if HeadDisturbsNone(pools, logged) {
      forall e | e in rest ensures e.pool != q {
        var j :| 0 <= j < |logged| - 1 && logged[1..][j] == Some(e);
      }
    } else {
      var j :| 0 <= j < |pools| - 1 && Disturbs(pools[0], logged[0], pools[1..][j], logged[1..][j]);
      assert logged[1..][j] in logged[1..];
      assert logged[1..][j].value in rest;
    }
  }

  lemma {:induction false} OwnTaken(pools: seq<Option<Key>>, logged: seq<Option<SwapEvent>>, skipped: seq<SwapEvent>)
    requires Consistent(pools, logged) && Undisturbed(pools, logged) && Unclaimed(skipped, pools)
    ensures Taking(pools, skipped + LogOf(logged)) == Left(pools, logged)
    decreases pools
  {
    if pools != [] {
      TailConsistent(pools, logged);
      UndisturbedCons(pools, logged);
      UnclaimedCons(skipped, pools);
      var tailPools, tailLogged := pools[1..], logged[1..];
      if pools[0].None? && logged[0].None? {
        assert LogOf(logged) == LogOf(tailLogged);
        OwnTaken(tailPools, tailLogged, skipped);
      } else if pools[0].None? {
        EventSkipped(pools, logged, skipped);
        OwnTaken(tailPools, tailLogged, skipped + [logged[0].value]);
      } else if logged[0].None? {
        MissingTakesNone(pools, logged, skipped);
        OwnTaken(tailPools, tailLogged, skipped);
      } else {
        TakenBehind(skipped, logged[0].value, LogOf(tailLogged));
        OwnTaken(tailPools, tailLogged, skipped);
      }
    }
  }

  // ----- necessity -----

  lemma {:induction false} TailDistinct(logged: seq<Option<SwapEvent>>, skipped: seq<SwapEvent>)
    requires DistinctEvents(logged) && logged != [] && forall s :: s in skipped ==> Some(s) !in logged
    ensures DistinctEvents(logged[1..])
    ensures forall s :: s in skipped ==> Some(s) !in logged[1..]
    ensures logged[0].Some? ==> logged[0] !in logged[1..]
  {
    assert logged == [logged[0]] + logged[1..];
    assert forall k :: 0 <= k < |logged| - 1 ==> logged[1..][k] == logged[k + 1];
  }

  lemma {:induction false} SameHead(x: Option<SwapEvent>, a: seq<Option<SwapEvent>>, y: Option<SwapEvent>,
                                    b: seq<Option<SwapEvent>>)
    ensures [x] + a == [y] + b ==> x == y && a == b
  {
    if [x] + a == [y] + b {
      assert ([x] + a)[0] == ([y] + b)[0];
      assert ([x] + a)[1..] == a && ([y] + b)[1..] == b;
    }
  }

  lemma {:induction false} OwnTakenOnlyIf(pools: seq<Option<Key>>, logged: seq<Option<SwapEvent>>,
                                          skipped: seq<SwapEvent>)
    requires Consistent(pools, logged) && DistinctEvents(logged)
    requires forall s :: s in skipped ==> Some(s) !in logged
    requires Taking(pools, skipped + LogOf(logged)) == Left(pools, logged)
    ensures Undisturbed(pools, logged) && Unclaimed(skipped, pools)
    decreases pools
  {
    if pools != [] {
      TailConsistent(pools, logged);
      TailDistinct(logged, skipped);
      UndisturbedCons(pools, logged);
      UnclaimedCons(skipped, pools);
      var tailPools, tailLogged := pools[1..], logged[1..];
      if pools[0].None? && logged[0].None? {
        assert LogOf(logged) == LogOf(tailLogged);
        OwnTakenOnlyIf(tailPools, tailLogged, skipped);
      } else if pools[0].None? {
        EventSkipped(pools, logged, skipped);
        OwnTakenOnlyIf(tailPools, tailLogged, skipped + [logged[0].value]);
      } else {
        var events, q := skipped + LogOf(logged), pools[0].value;
        SameHead(Taken(events, q), Taking(tailPools, Remaining(events, q)), logged[0], Left(tailPools, tailLogged));
        if logged[0].None? {
          MissingTakesNone(pools, logged, skipped);
        } else {
          OwnNotSkipped(skipped, logged, q);
          TakenBehind(skipped, logged[0].value, LogOf(tailLogged));
        }
        OwnTakenOnlyIf(tailPools, tailLogged, skipped);
      }
    }
  }

  /** A swap that takes its own event finds no event of its pool left behind before it. */
  lemma {:induction false} OwnNotSkipped(skipped: seq<SwapEvent>, logged: seq<Option<SwapEvent>>, pool: Key)
    requires logged != [] && logged[0].Some? && forall s :: s in skipped ==> Some(s) !in logged
    requires Taken(skipped + LogOf(logged), pool) == logged[0]
    ensures forall s :: s in skipped ==> s.pool != pool
  {
    assert logged[0] in logged;
    if exists s :: s in skipped && s.pool == pool {
      TakenFromSkipped(skipped, LogOf(logged), pool);
    }
  }

  /** Remove-first-by-pool gives every accepted swap exactly the event it left, or none if it left
      none, if and only if no instruction disturbs a later one. */
  lemma {:induction false} OwnTakenIff(pools: seq<Option<Key>>, logged: seq<Option<SwapEvent>>)
    requires Consistent(pools, logged) && DistinctEvents(logged)
    ensures Taking(pools, LogOf(logged)) == Left(pools, logged) <==> Undisturbed(pools, logged)
  {
    var nothing: seq<SwapEvent> := [];
    assert nothing + LogOf(logged) == LogOf(logged);
    if Undisturbed(pools, logged) {
      OwnTaken(pools, logged, nothing);
    }
    if Taking(pools, LogOf(logged)) == Left(pools, logged) {
      OwnTakenOnlyIf(pools, logged, nothing);
    }
  }

  /** A rejected swap's event is taken by the next swap on its pool. */
  lemma {:induction false} ShiftedPair(pools: seq<Option<Key>>, e1: SwapEvent, e2: SwapEvent)
    requires |pools| == 2 && pools[0].None? && pools[1] == Some(e1.pool)
    ensures Taking(pools, [e1, e2]) == [Some(e1)] && Left(pools, [Some(e1), Some(e2)]) == [Some(e2)]
    ensures Taken([e1, e2], e1.pool) == Some(e1)
  {
    var events := [e1, e2];
    assert FindPool(events, e1.pool) == 0;
    assert |pools[1..][1..]| == 0;
    assert Taking(pools[1..][1..], Remaining(events, e1.pool)) == [];
    var logged: seq<Option<SwapEvent>> := [Some(e1), Some(e2)];
    assert logged[1..] == [Some(e2)];
    assert Left(pools[1..][1..], logged[1..][1..]) == [];
  }
}
