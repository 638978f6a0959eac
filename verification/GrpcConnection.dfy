/** The stream loop and the reconnect loop (src/grpc/connection.rs), and the replay point a
    restart starts from (src/main.rs). */
module GrpcConnection {
  import opened Prelude
  import opened TradeStore

  const MAX_RECONNECT_ATTEMPTS: nat := 10
  const INITIAL_BACKOFF_SECS: nat := 1
  const MAX_BACKOFF_SECS: nat := 60
  const REPLAY_MARGIN: nat := 32

  // ----- one stream -----

  /** A stream message: a transaction (with the handler's outcome), another update, or an error. */
  datatype Message = Transaction(slot: nat, handled: bool) | OtherUpdate | StreamError(outOfRange: bool)

  datatype StreamEnd = StreamEnd(lastProcessed: Option<nat>, replayUnavailable: bool)

  /** The messages the loop reads: up to and including the first error. */
  function ReadPart(messages: seq<Message>): (r: seq<Message>)
    ensures r <= messages
  {
    if messages == [] then []
    else if messages[0].StreamError? then [messages[0]]
    else [messages[0]] + ReadPart(messages[1..])
  }

  /** `slot` is the highest slot of a transaction in `read` that its handler accepted. */
  ghost predicate HighestHandled(slot: Option<nat>, read: seq<Message>) {
    if slot.None? then forall m :: m in read ==> !(m.Transaction? && m.handled)
    else Transaction(slot.value, true) in read
         && forall m :: m in read && m.Transaction? && m.handled ==> m.slot <= slot.value
  }

  lemma {:induction false} HandledPush(slot: Option<nat>, read: seq<Message>, m: Message)
    requires HighestHandled(slot, read)
    ensures HighestHandled(if m.Transaction? && m.handled
                           then Some(if slot.None? || slot.value < m.slot then m.slot else slot.value) else slot,
                           read + [m])
  {
    assert forall x :: x in read + [m] <==> x in read || x == m;
  }

  lemma {:induction false} ReadOn(messages: seq<Message>, i: nat)
    requires i < |messages|
    ensures var m := messages[i];
            ReadPart(messages[i..]) == [m] + if m.StreamError? then [] else ReadPart(messages[i + 1..])
  {
    assert messages[i..][0] == messages[i] && messages[i..][1..] == messages[i + 1..];
  }

  method ProcessStream(messages: seq<Message>) returns (end: StreamEnd)
    ensures HighestHandled(end.lastProcessed, ReadPart(messages))
    ensures end.replayUnavailable <==> StreamError(true) in ReadPart(messages)
  {
    var last: Option<nat> := None;
    var replayUnavailable := false;
    var i := 0;
    ghost var read: seq<Message> := [];
    while i < |messages|
      invariant 0 <= i <= |messages|
      invariant ReadPart(messages) == read + ReadPart(messages[i..])
      invariant HighestHandled(last, read) && !replayUnavailable
      invariant StreamError(true) !in read
      decreases |messages| - i
    {
      var message := messages[i];
      ReadOn(messages, i);
      HandledPush(last, read, message);
      Assoc(read, [message], ReadPart(messages[i + 1..]));
      read := read + [message];
      match message {
        case Transaction(slot, handled) =>
          if handled {
            last := Some(if last.None? || last.value < slot then slot else last.value);
          }
        case OtherUpdate =>
        case StreamError(outOfRange) =>
          return StreamEnd(last, outOfRange);
      }
      i := i + 1;
    }
    assert messages[i..] == [] && read + [] == read;
    return StreamEnd(last, replayUnavailable);
  }

  // ----- reconnecting -----

  /** How one attempt went: the stream ran and ended, or it could not be set up. */
  datatype Attempt = Ended(end: StreamEnd) | Refused

  function NextFromSlot(fromSlot: Option<nat>, attempt: Attempt): Option<nat> {
    match attempt
    case Refused => fromSlot
    case Ended(end) =>
      if end.replayUnavailable then None
      else if end.lastProcessed.Some? then end.lastProcessed
      else fromSlot
  }

  datatype Retry = Retry(attempts: nat, backoff: nat)

  /** Counters after one attempt and the wait that follows it. */
  function NextRetry(r: Retry, attempt: Attempt): (Retry, nat) {
    var failed := r.attempts + 1;
    var (attempts, wait) := if attempt.Ended? then (0, INITIAL_BACKOFF_SECS)
                            else if failed >= MAX_RECONNECT_ATTEMPTS then (0, MAX_BACKOFF_SECS)
                            else (failed, r.backoff);
    (Retry(attempts, Min(wait * 2, MAX_BACKOFF_SECS)), wait)
  }

  function Min(a: nat, b: nat): nat { if a <= b then a else b }

  class ConnectionManager {
    var fromSlot: Option<nat>
    var attemptCount: nat
    var backoffSecs: nat

    constructor (fromSlot: Option<nat>)
      ensures Valid() && this.fromSlot == fromSlot && State() == Retry(0, 1)
    {
      this.fromSlot, attemptCount, backoffSecs := fromSlot, 0, INITIAL_BACKOFF_SECS;
    }

    predicate Valid()
      reads this
    {
      attemptCount < MAX_RECONNECT_ATTEMPTS && INITIAL_BACKOFF_SECS <= backoffSecs <= MAX_BACKOFF_SECS
    }

    function State(): Retry
      reads this
    {
      Retry(attemptCount, backoffSecs)
    }

    /** One turn of the connection loop; returns the seconds it sleeps before the next. */
    method AfterAttempt(attempt: Attempt) returns (wait: nat)
      requires Valid()
      modifies this
      ensures Valid() && fromSlot == NextFromSlot(old(fromSlot), attempt)
      ensures (State(), wait) == NextRetry(old(State()), attempt)
      ensures 1 <= wait <= 60
    {
      match attempt {
        case Ended(end) =>
          if end.replayUnavailable {
            fromSlot := None;
          } else if end.lastProcessed.Some? {
            fromSlot := end.lastProcessed;
          }
          attemptCount := 0;
          backoffSecs := INITIAL_BACKOFF_SECS;
        case Refused =>
          attemptCount := attemptCount + 1;
          if attemptCount >= MAX_RECONNECT_ATTEMPTS {
            attemptCount := 0;
            backoffSecs := MAX_BACKOFF_SECS;
          }
      }
      wait := backoffSecs;
      backoffSecs := Min(backoffSecs * 2, MAX_BACKOFF_SECS);
    }
  }

  function Pow2(n: nat): nat { if n == 0 then 1 else 2 * Pow2(n - 1) }

  /** Counters after `n` refusals in a row. */
  function AfterRefusals(r: Retry, n: nat): Retry {
    if n == 0 then r else NextRetry(AfterRefusals(r, n - 1), Refused).0
  }

  lemma {:induction false} Pow2Grows(n: nat, m: nat)
    requires n <= m
    ensures Pow2(n) <= Pow2(m)
  {
    if n < m {
      Pow2Grows(n, m - 1);
    }
  }

  function Backoff(first: nat, n: nat): nat {
    Min(first * Pow2(n), 60)
  }

  lemma {:induction false} BackoffDoubles(first: nat, n: nat)
    requires first == 1 || first == 2
    ensures Backoff(first, n + 1) == Min(2 * Backoff(first, n), 60)
    ensures n >= 6 ==> Backoff(first, n) == 60
  {
    if n >= 6 {
      Pow2Grows(6, n);
      assert Pow2(6) == 64;
    }
    if first == 1 {
      assert first * Pow2(n + 1) == 2 * (first * Pow2(n));
    }
  }

  lemma {:induction false} CountUp(n: nat)
    requires n > 0
    ensures n % 10 == if (n - 1) % 10 == 9 then 0 else (n - 1) % 10 + 1
    ensures n % 10 == 9 ==> n >= 9
  {
  }

  /** The wait after the n-th refusal in a row doubles from `first` (1 s at start-up, 2 s after
      a stream that ran) up to a minute and stays there: giving up at the tenth changes nothing. */
  lemma {:induction false} BackoffClosedForm(first: nat, n: nat)
    requires first == 1 || first == 2
    ensures AfterRefusals(Retry(0, first), n) == Retry(n % 10, Backoff(first, n))
    ensures NextRetry(AfterRefusals(Retry(0, first), n), Refused).1 == Backoff(first, n)
  {
    if n > 0 {
      BackoffClosedForm(first, n - 1);
      BackoffDoubles(first, n - 1);
      CountUp(n);
    }
    BackoffDoubles(first, n);
  }

  /** A stream that ran starts the count afresh, however long the waits had become: the next attempt
      comes a second later, and the n-th refusal after that waits min(2 * 2^n, 60) seconds. */
  lemma {:induction false} EndedStartsAfresh(r: Retry, end: StreamEnd, n: nat)
    ensures NextRetry(r, Ended(end)).1 == 1
    ensures NextRetry(AfterRefusals(NextRetry(r, Ended(end)).0, n), Refused).1 == Backoff(2, n)
  {
    BackoffClosedForm(2, n);
  }

  // ----- the replay point of a restart -----

  ghost function MaxSlot(t: Table): (r: Option<nat>)
    ensures r.None? <==> t == map[]
    ensures r.Some? ==> exists k :: k in t && t[k].slot == r.value
    ensures r.Some? ==> forall k :: k in t ==> t[k].slot <= r.value
  {
    if t == map[] then None
    else
      assert exists k :: k in t by { assert t.Keys != {}; }
      var k :| k in t;
      var rest := MaxSlot(t - {k});
      assert t.Keys == (t - {k}).Keys + {k};
      if rest.Some? && rest.value > t[k].slot then rest else Some(t[k].slot)
  }

  /** Where a restarted process asks the provider to replay from. */
  ghost function RestartSlot(t: Table): Option<nat> {
    var m := MaxSlot(t);
    if m.None? then None else Some(if m.value >= REPLAY_MARGIN then m.value - REPLAY_MARGIN else 0)
  }
}
