/** The pipeline when anything may go wrong: handlers fail, replays are refused, connections resume
    live, processes crash at any moment. Which transactions such a run misses, and that it loses
    nothing else. */
module PipelineErrors {
  import opened Prelude
  import opened TradeStore
  import opened BatchInserter
  import opened GrpcConnection
  import opened Pipeline
  import opened PipelineFailures

  /** A move of the machine with failing statements; a handler that fails before, while or after
      sending the trades of its transaction; a stream that ends because the provider no longer
      holds the replay point. */
  datatype Turn = Normal(move: Move) | HandlerFails | ReplayRefused

  ghost predicate CanTurn(s: State, turn: Turn) {
    match turn
    case Normal(move) => CanMove(s, move)
    case HandlerFails => s.stream.Up? && s.stream.cursor < |s.ledger|
    case ReplayRefused => s.stream.Up? && s.stream.sending.None?
  }

  ghost function Turned(s: State, turn: Turn): State
    requires CanTurn(s, turn)
  {
    match turn
    case Normal(move) => Moved(s, move)
    case HandlerFails => s.(stream := Up(s.stream.cursor + 1, s.stream.last, None))
    case ReplayRefused =>
      s.(stream := Down, fromSlot := NextFromSlot(s.fromSlot, Ended(StreamEnd(s.stream.last, true))))
  }

  // ----- what is missed -----

  /** The transactions before this point are not asked for again because of the turn: the stream
      moves past the one whose handler failed, a live connection past the whole ledger, a
      restarted process past everything below its restart point. */
  ghost function PassedTo(s: State, turn: Turn): nat
    requires CanTurn(s, turn)
  {
    match turn
    case HandlerFails => s.stream.cursor + 1
    case ReplayRefused => 0
    case Normal(CommitAt(_, _)) => 0
    case Normal(Machine(step)) =>
      if step.Connect? && s.fromSlot.None? then |s.ledger|
      else if step.Crash? && s.table != map[] then FirstAt(s.ledger, RestartSlot(s.table).value)
      else 0
  }

  /** The transactions passed although some of their trades are neither stored nor waiting. */
  ghost function Missed(s: State, turn: Turn): set<nat>
    requires CanTurn(s, turn)
  {
    var s' := Turned(s, turn);
    set k: nat | k < PassedTo(s, turn) && k < |s'.ledger| && !AllAccounted(s'.table, s'.pending, s'.ledger[k].trades)
  }

  lemma {:induction false} Passed(s: State, turn: Turn, k: nat)
    requires CanTurn(s, turn) && k < PassedTo(s, turn) && k < |Turned(s, turn).ledger| && k !in Missed(s, turn)
    ensures var s' := Turned(s, turn); AllAccounted(s'.table, s'.pending, s'.ledger[k].trades)
  {
  }

  // ----- everything else is kept -----

  lemma {:induction false} LessCovered(s: State, scope: iset<nat>, less: iset<nat>, slot: nat, rows: seq<TradeRow>)
    requires less <= scope && CoveredBelow(s, scope, slot, rows)
    ensures CoveredBelow(s, less, slot, rows)
  {
  }

  /** Expecting less is always possible. */
  lemma {:induction false} LessIsLoose(s: State, scope: iset<nat>, less: iset<nat>)
    requires less <= scope && LooseInv(s, scope)
    ensures LooseInv(s, less)
  {
    if s.fromSlot.Some? {
      LessCovered(s, scope, less, s.fromSlot.value, s.pending);
    }
    forall p | 0 <= p < |s.pending| {
      LessCovered(s, scope, less, s.pending[p].slot, s.pending);
    }
    if s.table != map[] {
      LessCovered(s, scope, less, RestartSlot(s.table).value, s.pending);
    }
  }

  /** The transactions still due after a turn. */
  ghost function Left(scope: iset<nat>, s: State, turn: Turn): iset<nat>
    requires CanTurn(s, turn)
  {
    iset k | k in scope && k !in Missed(s, turn)
  }

  lemma {:induction false} FailKeepsLoose(s: State, scope: iset<nat>)
    requires LooseInv(s, scope) && CanTurn(s, HandlerFails)
    ensures LooseInv(Turned(s, HandlerFails), Left(scope, s, HandlerFails))
  {
    var less, s' := Left(scope, s, HandlerFails), Turned(s, HandlerFails);
    LessIsLoose(s, scope, less);
    forall i | i in less && i < s'.stream.cursor ensures AllAccounted(s'.table, s'.pending, s'.ledger[i].trades) {
      Passed(s, HandlerFails, i);
    }
    StreamMoves(s, s', less);
  }

  lemma {:induction false} LiveKeepsLoose(s: State, scope: iset<nat>)
    requires LooseInv(s, scope) && Enabled(s, Connect) && s.fromSlot.None?
    ensures LooseInv(After(s, Connect), Left(scope, s, Normal(Machine(Connect))))
  {
    var turn := Normal(Machine(Connect));
    var less, s' := Left(scope, s, turn), After(s, Connect);
    LessIsLoose(s, scope, less);
    forall i | i in less && i < s'.stream.cursor ensures AllAccounted(s'.table, s'.pending, s'.ledger[i].trades) {
      Passed(s, turn, i);
    }
    StreamMoves(s, s', less);
  }

  lemma {:induction false} AnyCrashKeepsLoose(s: State, scope: iset<nat>)
    requires LooseInv(s, scope)
    ensures LooseInv(After(s, Crash), Left(scope, s, Normal(Machine(Crash))))
  {
    var turn := Normal(Machine(Crash));
    var less, s' := Left(scope, s, turn), After(s, Crash);
    if s.table != map[] {
      RestartBelowTip(s);
      CrashCovers(s, less);
    }
    DownIsLoose(s', less);
  }

  lemma {:induction false} CrashCovers(s: State, less: iset<nat>)
    requires GoodLedger(s.ledger) && s.table != map[]
    requires forall k :: k in less ==> k !in Missed(s, Normal(Machine(Crash)))
    ensures CoveredBelow(After(s, Crash), less, RestartSlot(s.table).value, [])
  {
    var restart, s' := RestartSlot(s.table).value, After(s, Crash);
    forall i | i in less && i < |s'.ledger| && s'.ledger[i].slot < restart
      ensures AllAccounted(s'.table, [], s'.ledger[i].trades)
    {
      PassedBelow(s.ledger, restart, i);
      Passed(s, Normal(Machine(Crash)), i);
    }
  }

  lemma {:induction false} RefusedKeepsLoose(s: State, scope: iset<nat>)
    requires LooseInv(s, scope) && CanTurn(s, ReplayRefused)
    ensures LooseInv(Turned(s, ReplayRefused), scope)
  {
    StreamMoves(s, Turned(s, ReplayRefused), scope);
  }

  /** Whatever a turn does, what it does not miss stays accounted for. */
  lemma {:induction false} TurnKeepsLoose(s: State, scope: iset<nat>, turn: Turn)
    requires LooseInv(s, scope) && CanTurn(s, turn)
    ensures LooseInv(Turned(s, turn), Left(scope, s, turn))
  {
    var less := Left(scope, s, turn);
    match turn {
      case HandlerFails => FailKeepsLoose(s, scope);
      case ReplayRefused =>
        RefusedKeepsLoose(s, scope);
        LessIsLoose(Turned(s, turn), scope, less);
      case Normal(move) =>
        if move == Machine(Connect) && s.fromSlot.None? {
          LiveKeepsLoose(s, scope);
        } else if move == Machine(Crash) {
          AnyCrashKeepsLoose(s, scope);
        } else {
          MoveKeepsLoose(s, scope, move);
          LessIsLoose(Moved(s, move), scope, less);
        }
    }
  }

  // ----- whole runs -----

  /** Any run at all. */
  ghost predicate AnyRun(states: seq<State>, turns: seq<Turn>, start: nat) {
    && |states| == |turns| + 1 && Init(states[0], start)
    && forall i :: 0 <= i < |turns| ==> CanTurn(states[i], turns[i]) && states[i + 1] == Turned(states[i], turns[i])
  }

  /** What the first `n` turns missed. */
  ghost function MissedBy(states: seq<State>, turns: seq<Turn>, start: nat, n: nat): set<nat>
    requires AnyRun(states, turns, start) && n <= |turns|
  {
    if n == 0 then {} else MissedBy(states, turns, start, n - 1) + Missed(states[n - 1], turns[n - 1])
  }

  lemma {:induction false} DueLeft(start: nat, missed: set<nat>, s: State, turn: Turn)
    requires CanTurn(s, turn)
    ensures Due(start, missed + Missed(s, turn)) == Left(Due(start, missed), s, turn)
  {
  }

  lemma {:induction false} AnyRunKeepsLoose(states: seq<State>, turns: seq<Turn>, start: nat, n: nat)
    requires AnyRun(states, turns, start) && n <= |turns|
    ensures LooseInv(states[n], Due(start, MissedBy(states, turns, start, n)))
  {
    if n == 0 {
      InitHolds(states[0], start);
      InvIsLoose(states[0], From(start));
    } else {
      var missed := MissedBy(states, turns, start, n - 1);
      AnyRunKeepsLoose(states, turns, start, n - 1);
      TurnKeepsLoose(states[n - 1], Due(start, missed), turns[n - 1]);
      DueLeft(start, missed, states[n - 1], turns[n - 1]);
    }
  }

  // ----- what reconnecting skips -----

  /** Every trade of the transaction is stored or waiting. */
  ghost predicate AccountedFor(s: State, k: nat)
    requires k < |s.ledger|
  {
    AllAccounted(s.table, s.pending, s.ledger[k].trades)
  }

  lemma {:induction false} SkipsOnlyMissed(s: State, start: nat, missed: set<nat>)
    requires LooseInv(s, Due(start, missed)) && s.stream.Up?
    ensures NothingSkipped(s, From(start))
       <==> forall k :: k in missed && start <= k < s.stream.cursor ==> AccountedFor(s, k)
  {
    forall k | k in From(start) && k < s.stream.cursor ensures k in missed || AccountedFor(s, k) {
      assert k in missed || k in Due(start, missed);
    }
    assert forall k :: k in missed && start <= k < s.stream.cursor ==> k in From(start);
  }

  /** Every one of these transactions below `slot` is stored or waiting by now. */
  ghost predicate Recovered(s: State, start: nat, which: set<nat>, slot: nat) {
    forall k :: k in which && start <= k < |s.ledger| && s.ledger[k].slot < slot ==> AccountedFor(s, k)
  }

  /** Whatever went wrong before, a reconnection from a replay point skips nothing exactly when
      every missed transaction before that point is stored or waiting by now. */
  lemma {:induction false} ReconnectIff(states: seq<State>, turns: seq<Turn>, start: nat, i: nat)
    requires AnyRun(states, turns, start) && i < |turns| && turns[i] == Normal(Machine(Connect))
    requires states[i].fromSlot.Some?
    ensures NothingSkipped(states[i + 1], From(start))
       <==> Recovered(states[i], start, MissedBy(states, turns, start, i), states[i].fromSlot.value)
  {
    AnyRunKeepsLoose(states, turns, start, i);
    ReconnectSkips(states[i], start, MissedBy(states, turns, start, i));
  }

  lemma {:induction false} ReconnectSkips(s: State, start: nat, missed: set<nat>)
    requires LooseInv(s, Due(start, missed)) && Enabled(s, Connect) && s.fromSlot.Some?
    ensures NothingSkipped(After(s, Connect), From(start)) <==> Recovered(s, start, missed, s.fromSlot.value)
  {
    var s' := After(s, Connect);
    ConnectKeepsLoose(s, Due(start, missed));
    SkipsOnlyMissed(s', start, missed);
    if NothingSkipped(s', From(start)) {
      SkippingNothingRecovers(s, start, missed);
    }
  }

  lemma {:induction false} SkippingNothingRecovers(s: State, start: nat, which: set<nat>)
    requires GoodLedger(s.ledger) && Enabled(s, Connect) && s.fromSlot.Some?
    requires NothingSkipped(After(s, Connect), From(start))
    ensures Recovered(s, start, which, s.fromSlot.value)
  {
    forall k | k in which && start <= k < |s.ledger| && s.ledger[k].slot < s.fromSlot.value ensures AccountedFor(s, k) {
      PassedBelow(s.ledger, s.fromSlot.value, k);
      assert k in From(start) && AccountedFor(After(s, Connect), k);
    }
  }

  /** A refused replay drops the replay point. Resuming live then skips nothing exactly when every
      transaction missed before, and every one the refused stream had not come to, is stored or
      waiting. */
  lemma {:induction false} RefusedReplayIff(s: State, start: nat, missed: set<nat>)
    requires LooseInv(s, Due(start, missed)) && CanTurn(s, ReplayRefused)
    ensures var refused := Turned(s, ReplayRefused);
            && refused.fromSlot == None && Enabled(refused, Connect)
            && (NothingSkipped(After(refused, Connect), From(start))
                <==> forall k :: start <= k < |s.ledger| && (k in missed || k >= s.stream.cursor) ==>
                       AccountedFor(s, k))
  {
    var s' := After(Turned(s, ReplayRefused), Connect);
    forall k | start <= k < |s.ledger| ensures k in missed || k >= s.stream.cursor || AccountedFor(s, k) {
      assert k in missed || k in Due(start, missed);
    }
    assert forall k :: start <= k < |s.ledger| ==> AccountedFor(s', k) == AccountedFor(s, k) && k in From(start);
    assert forall k :: k in From(start) ==> start <= k;
  }

  lemma {:induction false} RefusedInRunIff(states: seq<State>, turns: seq<Turn>, start: nat, i: nat)
    requires AnyRun(states, turns, start) && i < |turns| && turns[i] == ReplayRefused
    ensures Enabled(states[i + 1], Connect)
    ensures NothingSkipped(After(states[i + 1], Connect), From(start))
       <==> forall k :: start <= k < |states[i].ledger|
                        && (k in MissedBy(states, turns, start, i) || k >= states[i].stream.cursor) ==>
                          AccountedFor(states[i], k)
  {
    AnyRunKeepsLoose(states, turns, start, i);
    RefusedReplayIff(states[i], start, MissedBy(states, turns, start, i));
  }

  // ----- handler errors alone -----

  /** Nothing goes wrong but handlers and statements: no replay is refused, connections ask for a
      replay point, crashes are safe. */
  ghost predicate OnlyErrors(states: seq<State>, turns: seq<Turn>, start: nat, n: nat)
    requires |states| >= |turns| >= n
  {
    forall j :: 0 <= j < n ==>
      !turns[j].ReplayRefused? && (turns[j].Normal? ==> Guarded(states[j], From(start), turns[j].move))
  }

  /** The transactions whose handler failed in the first `n` turns. */
  ghost function FailedBy(states: seq<State>, turns: seq<Turn>, start: nat, n: nat): set<nat>
    requires AnyRun(states, turns, start) && n <= |turns|
  {
    if n == 0 then {}
    else FailedBy(states, turns, start, n - 1) + FailedIn(states[n - 1], turns[n - 1])
  }

  ghost function FailedIn(s: State, turn: Turn): set<nat>
    requires CanTurn(s, turn)
  {
    if turn == HandlerFails then {s.stream.cursor} else {}
  }

  lemma {:induction false} SafeCrashMisses(s: State, start: nat, missed: set<nat>, k: nat)
    requires k in Missed(s, Normal(Machine(Crash))) && k >= start
    requires LooseInv(s, Due(start, missed)) && CrashIsSafe(s, From(start))
    ensures k in missed
  {
    SafeForLess(s, From(start), Due(start, missed));
    SafeCrashCovers(s, Due(start, missed));
    CoveredNotMissed(s, Due(start, missed), k);
    assert k in missed || k in Due(start, missed);
  }

  lemma {:induction false} CoveredNotMissed(s: State, scope: iset<nat>, k: nat)
    requires k in Missed(s, Normal(Machine(Crash)))
    requires s.table != map[] && CoveredBelow(s, scope, RestartSlot(s.table).value, [])
    ensures k !in scope
  {
  }

  lemma {:induction false} SafeForLess(s: State, scope: iset<nat>, less: iset<nat>)
    requires less <= scope && CrashIsSafe(s, scope)
    ensures CrashIsSafe(s, less)
  {
    forall t | InScope(s, less, t) ensures InScope(s, scope, t) {
      var i :| i in less && i < |s.ledger| && t in s.ledger[i].trades;
      assert i in scope;
    }
  }

  lemma {:induction false} FailureMisses(s: State, start: nat, missed: set<nat>, k: nat)
    requires LooseInv(s, Due(start, missed)) && CanTurn(s, HandlerFails)
    requires k in Missed(s, HandlerFails) && k >= start
    ensures k in missed || k == s.stream.cursor
  {
    assert k in missed || k in Due(start, missed);
  }

  lemma {:induction false} TurnMisses(s: State, start: nat, missed: set<nat>, turn: Turn, k: nat)
    requires LooseInv(s, Due(start, missed)) && CanTurn(s, turn) && !turn.ReplayRefused?
    requires turn.Normal? ==> Guarded(s, From(start), turn.move)
    requires k in Missed(s, turn) && k >= start
    ensures k in missed || k in FailedIn(s, turn)
  {
    if turn == HandlerFails {
      FailureMisses(s, start, missed, k);
    } else if turn == Normal(Machine(Crash)) {
      SafeCrashMisses(s, start, missed, k);
    }
  }

  /** Then only transactions whose handler failed are missed. */
  lemma {:induction false} MissedHaveFailed(states: seq<State>, turns: seq<Turn>, start: nat, n: nat, k: nat)
    requires AnyRun(states, turns, start) && n <= |turns| && OnlyErrors(states, turns, start, n)
    requires k in MissedBy(states, turns, start, n) && k >= start
    ensures k in FailedBy(states, turns, start, n)
  {
    var missed := MissedBy(states, turns, start, n - 1);
    if k in missed {
      MissedHaveFailed(states, turns, start, n - 1, k);
    } else {
      AnyRunKeepsLoose(states, turns, start, n - 1);
      TurnMisses(states[n - 1], start, missed, turns[n - 1], k);
    }
  }

  /** With handler errors, a reconnection skips nothing exactly when every transaction below the
      resume point whose handler failed is stored or waiting all the same. */
  lemma {:induction false} HandlerErrorsIff(states: seq<State>, turns: seq<Turn>, start: nat, i: nat)
    requires AnyRun(states, turns, start) && i < |turns| && turns[i] == Normal(Machine(Connect))
    requires OnlyErrors(states, turns, start, i) && states[i].fromSlot.Some?
    ensures NothingSkipped(states[i + 1], From(start))
       <==> Recovered(states[i], start, FailedBy(states, turns, start, i), states[i].fromSlot.value)
  {
    var s, missed, failed := states[i], MissedBy(states, turns, start, i), FailedBy(states, turns, start, i);
    AnyRunKeepsLoose(states, turns, start, i);
    ReconnectSkips(s, start, missed);
    if NothingSkipped(states[i + 1], From(start)) {
      SkippingNothingRecovers(s, start, failed);
    }
    forall k | k in missed && k >= start ensures k in failed {
      MissedHaveFailed(states, turns, start, i, k);
    }
  }

  // ----- caught up -----

  lemma {:induction false} DeliveryMentions(ledger: seq<LedgerTx>, start: nat, now: int, k: nat, t: Trade)
    requires start <= k < |ledger| && t in ledger[k].trades
    ensures Mentions(Delivery(ledger, start, now), t.key)
    decreases k - start
  {
    var own, rest := RowsAt(ledger[start].trades, now), Delivery(ledger, start + 1, now);
    var row: TradeRow;
    if k == start {
      var j :| 0 <= j < |ledger[k].trades| && ledger[k].trades[j] == t;
      row := own[j];
    } else {
      DeliveryMentions(ledger, start + 1, now, k, t);
      row :| row in rest && row.key == t.key;
    }
    assert row in own + rest;
  }

  /** What an uninterrupted run stores for a trade in scope is that trade. */
  lemma {:induction false} UninterruptedStores(ledger: seq<LedgerTx>, start: nat, now: int, k: nat, t: Trade)
    requires GoodLedger(ledger) && start <= k < |ledger| && t in ledger[k].trades
    ensures Stored(UpsertAll(map[], Delivery(ledger, start, now)), t)
  {
    var rows := Delivery(ledger, start, now);
    DeliveryMentions(ledger, start, now, k, t);
    UpsertAllAt(map[], rows, t.key);
    LastRowHasKey(rows, t.key);
    DeliveryHolds(ledger, start, now, LastRow(rows, t.key));
    assert OnLedger(ledger, t) && OnLedger(ledger, TradeOf(LastRow(rows, t.key)));
  }

  ghost predicate AllStored(s: State, k: nat)
    requires k < |s.ledger|
  {
    forall t :: t in s.ledger[k].trades ==> Stored(s.table, t)
  }

  /** Once any run has caught up and committed, everything it did not miss is stored, and its table
      is that of an uninterrupted run exactly when what it missed is stored too. */
  lemma {:induction false} CaughtUpIff(states: seq<State>, turns: seq<Turn>, start: nat, n: nat, now: int)
    requires AnyRun(states, turns, start) && n <= |turns| && CaughtUp(states[n])
    ensures var s, missed := states[n], MissedBy(states, turns, start, n);
            && (forall k :: start <= k < |s.ledger| && k !in missed ==> AllStored(s, k))
            && (AsUninterrupted(s, start, now)
                <==> forall k :: k in missed && start <= k < |s.ledger| ==> AllStored(s, k))
  {
    AnyRunKeepsLoose(states, turns, start, n);
    CaughtUpExcept(states[n], start, MissedBy(states, turns, start, n), now);
  }

  lemma {:induction false} StoredIsAccounted(s: State, k: nat)
    requires k < |s.ledger| && s.pending == []
    ensures AllStored(s, k) <==> AccountedFor(s, k)
  {
  }

  lemma {:induction false} CaughtUpExcept(s: State, start: nat, missed: set<nat>, now: int)
    requires LooseInv(s, Due(start, missed)) && CaughtUp(s)
    ensures forall k :: start <= k < |s.ledger| && k !in missed ==> AllStored(s, k)
    ensures AsUninterrupted(s, start, now)
       <==> forall k :: k in missed && start <= k < |s.ledger| ==> AllStored(s, k)
  {
    forall k | start <= k < |s.ledger| ensures k in missed || AllStored(s, k) {
      assert k in missed || k in Due(start, missed);
      StoredIsAccounted(s, k);
    }
    if AsUninterrupted(s, start, now) {
      forall k, t | start <= k < |s.ledger| && t in s.ledger[k].trades ensures Stored(s.table, t) {
        UninterruptedStores(s.ledger, start, now, k, t);
      }
    }
    if forall k :: start <= k < |s.ledger| ==> AllStored(s, k) {
      AllIsUninterrupted(s, start, now);
    }
  }

  lemma {:induction false} AllIsUninterrupted(s: State, start: nat, now: int)
    requires TableGenuine(s) && GoodLedger(s.ledger)
    requires forall k :: start <= k < |s.ledger| ==> AllStored(s, k)
    ensures AsUninterrupted(s, start, now)
  {
    var rows := Delivery(s.ledger, start, now);
    forall key | key in UpsertAll(map[], rows)
      ensures key in s.table && TradeOf(s.table[key]) == TradeOf(UpsertAll(map[], rows)[key])
    {
      UpsertAllAt(map[], rows, key);
      LastRowHasKey(rows, key);
      DeliveryHolds(s.ledger, start, now, LastRow(rows, key));
      var j :| start <= j < |s.ledger| && TradeOf(LastRow(rows, key)) in s.ledger[j].trades;
      assert AllStored(s, j);
    }
  }

  // ----- the stream loop under failures -----

  /** What the stream loop hears of a turn. */
  ghost function HeardIn(s: State, turn: Turn): seq<Message>
    requires CanTurn(s, turn)
  {
    match turn
    case HandlerFails => [Transaction(s.ledger[s.stream.cursor].slot, false)]
    case ReplayRefused => [StreamError(true)]
    case Normal(move) => if move == Machine(Finish) then [Transaction(s.ledger[s.stream.cursor].slot, true)] else []
  }

  ghost predicate StaysOpen(turn: Turn) {
    !turn.ReplayRefused? && (turn.Normal? && turn.move.Machine? ==>
      !turn.move.step.Connect? && !turn.move.step.Disconnect? && !turn.move.step.Crash?)
  }

  /** The turns of one open stream. */
  ghost predicate OneStream(states: seq<State>, turns: seq<Turn>) {
    && |states| == |turns| + 1 && states[0].stream.Up? && states[0].stream.last.None?
    && forall i :: 0 <= i < |turns| ==>
         StaysOpen(turns[i]) && CanTurn(states[i], turns[i]) && states[i + 1] == Turned(states[i], turns[i])
  }

  ghost function Heard(states: seq<State>, turns: seq<Turn>, n: nat): seq<Message>
    requires OneStream(states, turns) && n <= |turns|
  {
    if n == 0 then [] else Heard(states, turns, n - 1) + HeardIn(states[n - 1], turns[n - 1])
  }

  lemma {:induction false} TurnReports(s: State, turn: Turn, heard: seq<Message>)
    requires s.stream.Up? && StaysOpen(turn) && CanTurn(s, turn) && HighestHandled(s.stream.last, heard)
    ensures Turned(s, turn).stream.Up? && HighestHandled(Turned(s, turn).stream.last, heard + HeardIn(s, turn))
  {
    if HeardIn(s, turn) == [] {
      assert heard + [] == heard;
    } else {
      HandledPush(s.stream.last, heard, HeardIn(s, turn)[0]);
    }
  }

  lemma {:induction false} StreamReports(states: seq<State>, turns: seq<Turn>, n: nat)
    requires OneStream(states, turns) && n <= |turns|
    ensures states[n].stream.Up? && HighestHandled(states[n].stream.last, Heard(states, turns, n))
    ensures forall m :: m in Heard(states, turns, n) ==> m.Transaction?
  {
    if n > 0 {
      StreamReports(states, turns, n - 1);
      TurnReports(states[n - 1], turns[n - 1], Heard(states, turns, n - 1));
    }
  }

  /** Message `j` is of transaction `j` of the stream. */
  ghost predicate HeardAt(s: State, from: nat, m: Message, j: nat) {
    m.Transaction? && from + j < |s.ledger| && m.slot == s.ledger[from + j].slot
  }

  lemma {:induction false} TurnMovesOn(s: State, turn: Turn)
    requires s.stream.Up? && StaysOpen(turn) && CanTurn(s, turn)
    ensures var s' := Turned(s, turn);
            && s'.stream.Up? && s'.stream.cursor == s.stream.cursor + |HeardIn(s, turn)|
            && s.ledger <= s'.ledger
            && forall j :: 0 <= j < |HeardIn(s, turn)| ==> HeardAt(s', s.stream.cursor, HeardIn(s, turn)[j], j)
  {
  }

  /** The stream hears the ledger from where it was opened, transaction by transaction, whether their
      handlers fail or not, and stands behind the last one heard. */
  lemma {:induction false} HeardInOrder(states: seq<State>, turns: seq<Turn>, n: nat)
    requires OneStream(states, turns) && n <= |turns|
    ensures var from, heard := states[0].stream.cursor, Heard(states, turns, n);
            && states[n].stream.Up? && states[n].stream.cursor == from + |heard|
            && forall j :: 0 <= j < |heard| ==> HeardAt(states[n], from, heard[j], j)
  {
    if n > 0 {
      HeardInOrder(states, turns, n - 1);
      TurnMovesOn(states[n - 1], turns[n - 1]);
      var from, before, more := states[0].stream.cursor, Heard(states, turns, n - 1),
                                HeardIn(states[n - 1], turns[n - 1]);
      forall j | 0 <= j < |before + more| ensures HeardAt(states[n], from, (before + more)[j], j) {
        if j < |before| {
          assert HeardAt(states[n - 1], from, before[j], j);
        } else {
          assert HeardAt(states[n], from + |before|, more[j - |before|], j - |before|);
        }
      }
    }
  }

  lemma {:induction false} ReadAll(messages: seq<Message>, more: seq<Message>)
    requires forall m :: m in messages ==> m.Transaction?
    ensures ReadPart(messages + more) == messages + ReadPart(more)
  {
    if messages == [] {
      assert messages + more == more && messages + ReadPart(more) == ReadPart(more);
    } else {
      assert messages[0] in messages;
      assert (messages + more)[1..] == messages[1..] + more;
      ReadAll(messages[1..], more);
    }
  }

  /** Failed handlers included, the machine resumes from what the stream loop reports for the
      messages it heard, whether the stream just ends or the provider refuses the replay. */
  lemma {:induction false} LoopReportsUnderFailures(states: seq<State>, turns: seq<Turn>, end: StreamEnd, refused: bool)
    requires OneStream(states, turns) && states[|turns|].stream.Up? && states[|turns|].stream.sending.None?
    requires var last := if refused then HeardIn(states[|turns|], ReplayRefused) else [];
             var read := ReadPart(Heard(states, turns, |turns|) + last);
             HighestHandled(end.lastProcessed, read) && (end.replayUnavailable <==> StreamError(true) in read)
    ensures var s := states[|turns|];
            && end == StreamEnd(s.stream.last, refused)
            && NextFromSlot(s.fromSlot, Ended(end))
               == if refused then Turned(s, ReplayRefused).fromSlot else After(s, Disconnect).fromSlot
  {
    StreamReports(states, turns, |turns|);
    ReportOf(states[|turns|].stream.last, Heard(states, turns, |turns|), end, refused);
    ResumesFrom(states[|turns|], refused);
  }

  lemma {:induction false} ResumesFrom(s: State, refused: bool)
    requires s.stream.Up? && s.stream.sending.None?
    ensures NextFromSlot(s.fromSlot, Ended(StreamEnd(s.stream.last, refused)))
         == if refused then Turned(s, ReplayRefused).fromSlot else After(s, Disconnect).fromSlot
  {
  }

  /** What the loop reports of transactions followed by at most one refusal. */
  lemma {:induction false} ReportOf(last: Option<nat>, heard: seq<Message>, end: StreamEnd, refused: bool)
    requires HighestHandled(last, heard) && forall m :: m in heard ==> m.Transaction?
    requires var read := ReadPart(heard + if refused then [StreamError(true)] else []);
             HighestHandled(end.lastProcessed, read) && (end.replayUnavailable <==> StreamError(true) in read)
    ensures end == StreamEnd(last, refused)
  {
    var more := if refused then [StreamError(true)] else [];
    ReadAll(heard, more);
    assert ReadPart(more) == more;
    assert forall m :: m in heard + more ==> m in heard || m in more;
    HighestUnderError(last, heard, more);
    HighestIsUnique(end.lastProcessed, last, heard + more);
  }

  lemma {:induction false} HighestUnderError(slot: Option<nat>, heard: seq<Message>, more: seq<Message>)
    requires HighestHandled(slot, heard) && forall m :: m in more ==> !m.Transaction?
    ensures HighestHandled(slot, heard + more)
  {
    assert forall m :: m in heard + more <==> m in heard || m in more;
  }
}
