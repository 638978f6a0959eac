/** Routes of `multi_hop_swap`: their hops, the mint they spend, the side of each hop and
    the "routed" tag (src/utils/transaction.rs). */
module Routes {
  import opened Prelude
  import opened CallTree

  const FIXED_ACCOUNTS: nat := 16
  const ACCOUNTS_PER_HOP: nat := 5
  const USER_POS: nat := 0
  const USER_IN_POS: nat := 1

  /** One hop; `pool` is the pool, or the bonding curve of a curve hop. */
  datatype Hop = Hop(base: Key, quote: Key, pool: Key)

  /** A token-balance row; the mint is None when it does not parse as an address. */
  datatype BalanceRow = BalanceRow(account: nat, mint: Option<Key>)

  // ----- reading the instruction -----

  function KeyAt(accounts: seq<seq<byte>>, index: nat): Option<Key> {
    if index < |accounts| && |accounts[index]| == 32 then Some(accounts[index]) else None
  }

  function ResolveAccount(ix: Ix, accounts: seq<seq<byte>>, position: nat): Option<Key> {
    if position < |ix.accounts| then KeyAt(accounts, ix.accounts[position]) else None
  }

  /** Groups of five accounts from `at` on; a trailing partial group is ignored. */
  function HopsFrom(ix: Ix, accounts: seq<seq<byte>>, at: nat): seq<Hop>
    decreases |ix.accounts| - at
  {
    if at + ACCOUNTS_PER_HOP > |ix.accounts| then []
    else
      var base, quote, pool := ResolveAccount(ix, accounts, at), ResolveAccount(ix, accounts, at + 1),
                               ResolveAccount(ix, accounts, at + 2);
      (if base.Some? && quote.Some? && pool.Some? then [Hop(base.value, quote.value, pool.value)] else [])
      + HopsFrom(ix, accounts, at + ACCOUNTS_PER_HOP)
  }

  function SwapHops(ix: Ix, accounts: seq<seq<byte>>): seq<Hop> {
    HopsFrom(ix, accounts, FIXED_ACCOUNTS)
  }

  /** The accounts of the `k`-th hop resolve to its base, its quote and its pool. */
  ghost predicate HopAccounts(ix: Ix, accounts: seq<seq<byte>>, k: nat, hop: Hop) {
    && 16 + 5 * k + 5 <= |ix.accounts|
    && ResolveAccount(ix, accounts, 16 + 5 * k) == Some(hop.base)
    && ResolveAccount(ix, accounts, 17 + 5 * k) == Some(hop.quote)
    && ResolveAccount(ix, accounts, 18 + 5 * k) == Some(hop.pool)
  }

  lemma {:induction false} HopsFromPosition(ix: Ix, accounts: seq<seq<byte>>, k: nat, hops: seq<Hop>)
    requires k <= |hops| && forall i :: k <= i < |hops| ==> HopAccounts(ix, accounts, i, hops[i])
    requires |ix.accounts| < 16 + 5 * |hops| + 5
    ensures HopsFrom(ix, accounts, 16 + 5 * k) == hops[k..]
    decreases |hops| - k
  {
    if k < |hops| {
      HopsFromPosition(ix, accounts, k + 1, hops);
      assert HopAccounts(ix, accounts, k, hops[k]);
      assert hops[k..] == [hops[k]] + hops[k + 1..];
    }
  }

  /** A route's hops are its accounts from the seventeenth on, five to a hop: base, quote and pool
      first; what does not make a whole hop is left over. */
  lemma {:induction false} HopsByPosition(ix: Ix, accounts: seq<seq<byte>>, hops: seq<Hop>)
    requires forall i :: 0 <= i < |hops| ==> HopAccounts(ix, accounts, i, hops[i])
    requires |ix.accounts| < 16 + 5 * |hops| + 5
    ensures SwapHops(ix, accounts) == hops
  {
    HopsFromPosition(ix, accounts, 0, hops);
  }

  /** An account index resolves to the account it names, if that is an address. */
  lemma {:induction false} ResolvedAccount(ix: Ix, accounts: seq<seq<byte>>, position: nat, key: Key)
    ensures ResolveAccount(ix, accounts, position) == Some(key)
       <==> position < |ix.accounts| && ix.accounts[position] < |accounts| && accounts[ix.accounts[position]] == key
  {
  }

  // ----- sides -----

  /** A hop fed its quote mint buys, fed its base mint sells, and passes the other mint on. */
  datatype Fed = Broken | Passed(isBuy: bool, next: Key)

  function Feed(hop: Hop, current: Key): Fed {
    if current == hop.quote then Passed(true, hop.base)
    else if current == hop.base then Passed(false, hop.quote)
    else Broken
  }

  /** Each hop's side when the route spends `input`; None when the route does not chain. */
  function Sides(hops: seq<Hop>, input: Key): (r: Option<seq<bool>>)
    ensures r.Some? ==> |r.value| == |hops|
  {
    if hops == [] then Some([])
    else
      var fed := Feed(hops[0], input);
      if fed.Broken? then None else Prefixed([fed.isBuy], Sides(hops[1..], fed.next))
  }

  /** The mint a chaining route hands to the user. */
  function Output(hops: seq<Hop>, input: Key): Key
    requires Sides(hops, input).Some?
  {
    if hops == [] then input else Output(hops[1..], Feed(hops[0], input).next)
  }

  function Prefixed(done: seq<bool>, rest: Option<seq<bool>>): (r: Option<seq<bool>>)
    ensures done == [] ==> r == rest
    ensures rest == Some([]) ==> r == Some(done)
  {
    if rest.None? then None
    else
      assert rest.value == [] ==> done + rest.value == done;
      assert done == [] ==> done + rest.value == rest.value;
      Some(done + rest.value)
  }

  lemma {:induction false} PrefixedTwice(a: seq<bool>, b: seq<bool>, rest: Option<seq<bool>>)
    ensures Prefixed(a + b, rest) == Prefixed(a, Prefixed(b, rest))
  {
    if rest.Some? {
      assert (a + b) + rest.value == a + (b + rest.value);
    }
  }

  method MultiHopSides(hops: seq<Hop>, input: Key) returns (r: Option<seq<bool>>)
    ensures r == Sides(hops, input)
  {
    var current := input;
    var sides: seq<bool> := [];
    assert hops[0..] == hops;
    for i := 0 to |hops|
      invariant Sides(hops, input) == Prefixed(sides, Sides(hops[i..], current))
    {
      var hop := hops[i];
      assert hops[i..][0] == hop && hops[i..][1..] == hops[i + 1..];
      ghost var before := sides;
      if current == hop.quote {
        current := hop.base;
        sides := sides + [true];
        PrefixedTwice(before, [true], Sides(hops[i + 1..], current));
      } else if current == hop.base {
        current := hop.quote;
        sides := sides + [false];
        PrefixedTwice(before, [false], Sides(hops[i + 1..], current));
      } else {
        return None;
      }
    }
    return Some(sides);
  }

  // ----- the spent mint -----

  predicate Trades(hop: Hop, mint: Key) {
    mint == hop.base || mint == hop.quote
  }

  function RowMint(rows: seq<BalanceRow>, account: nat): Option<Key> {
    if rows == [] then None
    else if rows[0].account == account then rows[0].mint
    else RowMint(rows[1..], account)
  }

  ghost predicate FirstRowOf(rows: seq<BalanceRow>, account: nat, i: nat) {
    i < |rows| && rows[i].account == account && forall j :: 0 <= j < i ==> rows[j].account != account
  }

  lemma {:induction false} RowMintAt(rows: seq<BalanceRow>, account: nat, i: nat)
    requires FirstRowOf(rows, account, i)
    ensures RowMint(rows, account) == rows[i].mint
    decreases i
  {
    if i > 0 {
      assert forall j :: 0 <= j < |rows| - 1 ==> rows[1..][j] == rows[j + 1];
      RowMintAt(rows[1..], account, i - 1);
    }
  }

  lemma {:induction false} NoRowNoMint(rows: seq<BalanceRow>, account: nat)
    requires forall r :: r in rows ==> r.account != account
    ensures RowMint(rows, account) == None
  {
    if rows != [] {
      assert rows[0] in rows;
      NoRowNoMint(rows[1..], account);
    }
  }

  /** The first row of the account decides; without one there is no mint. */
  lemma {:induction false} RowMintIsFirst(rows: seq<BalanceRow>, account: nat)
    ensures forall i: nat :: FirstRowOf(rows, account, i) ==> RowMint(rows, account) == rows[i].mint
    ensures (forall r :: r in rows ==> r.account != account) ==> RowMint(rows, account) == None
  {
    forall i: nat | FirstRowOf(rows, account, i) ensures RowMint(rows, account) == rows[i].mint {
      RowMintAt(rows, account, i);
    }
    if forall r :: r in rows ==> r.account != account {
      NoRowNoMint(rows, account);
    }
  }

  /** The mint of the first pre-balance row of `user_in_token_account`. */
  function SpentRowMint(ix: Ix, preBalances: seq<BalanceRow>): Option<Key> {
    if |ix.accounts| <= USER_IN_POS then None else RowMint(preBalances, ix.accounts[USER_IN_POS])
  }

  /** The spent account is the instruction's second. */
  lemma {:induction false} SpentAccount(ix: Ix, preBalances: seq<BalanceRow>)
    ensures SpentRowMint(ix, preBalances) == if |ix.accounts| < 2 then None else RowMint(preBalances, ix.accounts[1])
  {
  }

  function InputMint(ix: Ix, preBalances: seq<BalanceRow>, hops: seq<Hop>): Option<Key> {
    if |hops| >= 2 && Trades(hops[1], hops[0].base) && !Trades(hops[1], hops[0].quote) then Some(hops[0].quote)
    else if |hops| >= 2 && !Trades(hops[1], hops[0].base) && Trades(hops[1], hops[0].quote) then Some(hops[0].base)
    else SpentRowMint(ix, preBalances)
  }

  /** Where the second hop trades both mints of the first, or neither, the balance row decides. */
  lemma {:induction false} RowDecides(ix: Ix, preBalances: seq<BalanceRow>, hops: seq<Hop>)
    requires |hops| >= 2 ==> (Trades(hops[1], hops[0].base) <==> Trades(hops[1], hops[0].quote))
    ensures InputMint(ix, preBalances, hops) == SpentRowMint(ix, preBalances)
  {
  }

  /** The second hop trades both mints of the first, or there is no second hop. */
  predicate Ambiguous(hops: seq<Hop>) {
    |hops| < 2 || (Trades(hops[1], hops[0].base) && Trades(hops[1], hops[0].quote))
  }

  /** On a route that chains from `input`, the spent mint is read off the first two hops
      whenever they determine it, whatever the balance rows say; otherwise the row decides. */
  lemma {:induction false} InputMintOfChain(ix: Ix, preBalances: seq<BalanceRow>, hops: seq<Hop>, input: Key)
    requires Sides(hops, input).Some?
    ensures InputMint(ix, preBalances, hops)
         == if Ambiguous(hops) then SpentRowMint(ix, preBalances) else Some(input)
  {
    if |hops| >= 2 {
      var next := Feed(hops[0], input).next;
      assert hops[1..][0] == hops[1];
      assert Sides(hops[1..], next).Some?;
      assert Trades(hops[1], next);
    }
  }

  /** Hence a route whose first hops are not ambiguous chains from one mint only. */
  lemma {:induction false} ChainsFromOneMint(hops: seq<Hop>, a: Key, b: Key)
    requires Sides(hops, a).Some? && Sides(hops, b).Some? && !Ambiguous(hops)
    ensures a == b
  {
    var ix := Ix(0, [], []);
    InputMintOfChain(ix, [], hops, a);
    InputMintOfChain(ix, [], hops, b);
  }

  // ----- reversing a route -----

  lemma {:induction false} SidesOfAppend(a: seq<Hop>, b: seq<Hop>, input: Key)
    requires Sides(a, input).Some? && Sides(b, Output(a, input)).Some?
    ensures Sides(a + b, input) == Some(Sides(a, input).value + Sides(b, Output(a, input)).value)
    ensures Output(a + b, input) == Output(b, Output(a, input))
  {
    if a == [] {
      assert a + b == b;
      assert [] + Sides(b, input).value == Sides(b, input).value;
    } else {
      assert (a + b)[0] == a[0] && (a + b)[1..] == a[1..] + b;
      var fed := Feed(a[0], input);
      SidesOfAppend(a[1..], b, fed.next);
      PrefixedTwice([fed.isBuy], Sides(a[1..], fed.next).value, Sides(b, Output(a, input)));
    }
  }

  function Negated(sides: seq<bool>): (r: seq<bool>)
    ensures |r| == |sides|
  {
    if sides == [] then [] else [!sides[0]] + Negated(sides[1..])
  }

  lemma {:induction false} NegatedAppend(a: seq<bool>, b: seq<bool>)
    ensures Negated(a + b) == Negated(a) + Negated(b)
  {
    if a == [] {
      assert a + b == b;
    } else {
      assert (a + b)[0] == a[0] && (a + b)[1..] == a[1..] + b;
      NegatedAppend(a[1..], b);
    }
  }

  /** Walking a route backwards from its output undoes it: the sides come out reversed and
      negated, and the original input is handed back. */
  lemma {:induction false} ReversedRoute(hops: seq<Hop>, input: Key)
    requires Sides(hops, input).Some?
    requires forall h :: h in hops ==> h.base != h.quote
    ensures var back := Sides(Reverse(hops), Output(hops, input));
            && back == Some(Negated(Reverse(Sides(hops, input).value)))
            && Output(Reverse(hops), Output(hops, input)) == input
  {
    if hops != [] {
      var Passed(isBuy, next) := Feed(hops[0], input);
      var sides := Sides(hops, input).value;
      ReversedRoute(hops[1..], next);
      assert hops[0] in hops;
      var last := [hops[0]];
      assert Feed(hops[0], next) == Passed(!isBuy, input);
      assert last[1..] == [];
      assert Sides(last, next) == Some([!isBuy]);
      assert Output(last, next) == input;
      SidesOfAppend(Reverse(hops[1..]), last, Output(hops, input));
      assert sides == [isBuy] + sides[1..] && sides[1..] == Sides(hops[1..], next).value;
      assert Reverse(sides) == Reverse(sides[1..]) + [isBuy];
      NegatedAppend(Reverse(sides[1..]), [isBuy]);
      assert Negated([isBuy]) == [!isBuy];
    }
  }

  // ----- the routed tag -----

  predicate IsRouted(hops: seq<Hop>, base: Key, isBuy: bool) {
    hops != [] && base != (if isBuy then hops[|hops| - 1].base else hops[0].base)
  }

  ghost predicate OneDirection(sides: seq<bool>, isBuy: bool) {
    forall i :: 0 <= i < |sides| ==> sides[i] == isBuy
  }

  /** What a chaining route spends is read off its first hop, what it hands out off its last. */
  lemma {:induction false} EndMints(hops: seq<Hop>, input: Key)
    requires hops != [] && Sides(hops, input).Some?
    ensures var sides, n := Sides(hops, input).value, |hops| - 1;
            && input == (if sides[0] then hops[0].quote else hops[0].base)
            && Output(hops, input) == if sides[n] then hops[n].base else hops[n].quote
  {
    var next := Feed(hops[0], input).next;
    if |hops| > 1 {
      EndMints(hops[1..], next);
    } else {
      assert hops[1..] == [];
    }
  }

  /** The user's own coin on a one-direction route: what a buy route ends with and what a
      sell route starts from. */
  lemma {:induction false} UserCoin(hops: seq<Hop>, input: Key, isBuy: bool)
    requires hops != [] && Sides(hops, input).Some? && OneDirection(Sides(hops, input).value, isBuy)
    ensures isBuy ==> Output(hops, input) == hops[|hops| - 1].base
    ensures !isBuy ==> input == hops[0].base
  {
    EndMints(hops, input);
  }

  /** On any chaining route, exactly when the tag of a trade of `base` says whether the user
      neither spent nor received that coin. The tag compares with the base of one end hop only.
      If that hop runs the trade's way the coin must not be the other end's alone; if it runs
      against the trade the coin must not be that hop's quote, and must be its base exactly when
      it is the mint of the other end. */
  lemma {:induction false} RoutedTagMeaning(hops: seq<Hop>, input: Key, isBuy: bool, base: Key)
    requires hops != [] && Sides(hops, input).Some? && forall h :: h in hops ==> h.base != h.quote
    ensures var sides, n, output := Sides(hops, input).value, |hops| - 1, Output(hops, input);
            (IsRouted(hops, base, isBuy) <==> base != input && base != output)
            <==> if isBuy then
                   if sides[n] then base == input ==> input == hops[n].base
                   else base != hops[n].quote && (base == hops[n].base <==> base == input)
                 else
                   if sides[0] then base != hops[0].quote && (base == hops[0].base <==> base == output)
                   else base == output ==> output == hops[0].base
  {
    EndMints(hops, input);
    assert hops[0] in hops && hops[|hops| - 1] in hops;
  }

  /** On a one-direction route the tag says "not the user's own coin", and "neither spent nor
      received by the user" exactly when the coin on the far side of the trade is not also a
      middle coin. */
  lemma {:induction false} OneDirectionTag(hops: seq<Hop>, input: Key, isBuy: bool, base: Key)
    requires hops != [] && Sides(hops, input).Some? && OneDirection(Sides(hops, input).value, isBuy)
    ensures var output := Output(hops, input);
            var user, far := if isBuy then output else input, if isBuy then input else output;
            && (IsRouted(hops, base, isBuy) <==> base != user)
            && ((IsRouted(hops, base, isBuy) <==> base != input && base != output)
                <==> (base == far ==> far == user))
  {
    UserCoin(hops, input, isBuy);
  }

  /** On a one-direction route with distinct base mints exactly one hop is not routed. */
  lemma {:induction false} ExactlyOneHopNotRouted(hops: seq<Hop>, isBuy: bool)
    requires hops != [] && forall i, j :: 0 <= i < j < |hops| ==> hops[i].base != hops[j].base
    ensures forall i :: 0 <= i < |hops| ==>
              (!IsRouted(hops, hops[i].base, isBuy) <==> i == if isBuy then |hops| - 1 else 0)
  {
  }

  /** A route that turns around (buy, then sell, the middle coin) tags neither hop as routed,
      although that coin never reaches the user's wallet. */
  lemma {:induction false} MixedRouteIsNotTagged(a: Key, b: Key, coin: Key, pool1: Key, pool2: Key)
    requires a != coin && b != coin
    ensures var hops := [Hop(coin, a, pool1), Hop(coin, b, pool2)];
            && Sides(hops, a) == Some([true, false]) && Output(hops, a) == b
            && !IsRouted(hops, coin, true) && !IsRouted(hops, coin, false)
  {
    var hops := [Hop(coin, a, pool1), Hop(coin, b, pool2)];
    assert hops[1..] == [Hop(coin, b, pool2)];
    assert hops[1..][1..] == [];
    assert Sides(hops[1..], coin) == Some([false]) && Output(hops[1..], coin) == b;
    assert Feed(hops[0], a) == Passed(true, coin);
    assert [true] + [false] == [true, false];
  }
}
