/** Insertion-ordered dictionaries, as the analysis scripts use them, and sums over their values. */
module Dict {
  import opened Prelude

  type Dict<K, V> = seq<(K, V)>

  predicate Keyed<K(==), V>(d: Dict<K, V>) {
    forall i, j :: 0 <= i < j < |d| ==> d[i].0 != d[j].0
  }

  function Lookup<K(==), V>(d: Dict<K, V>, k: K): Option<V> {
    if d == [] then None else if d[0].0 == k then Some(d[0].1) else Lookup(d[1..], k)
  }

  function LookupOr<K(==), V>(d: Dict<K, V>, k: K, default: V): V {
    match Lookup(d, k)
    case None => default
    case Some(v) => v
  }

  /** An existing key keeps its place; a new one goes last. */
  function Put<K(==), V>(d: Dict<K, V>, k: K, v: V): Dict<K, V> {
    if d == [] then [(k, v)]
    else if d[0].0 == k then [(k, v)] + d[1..]
    else [d[0]] + Put(d[1..], k, v)
  }

  lemma {:induction false} LookupPut<K, V>(d: Dict<K, V>, k: K, v: V, q: K)
    ensures Lookup(Put(d, k, v), q) == if q == k then Some(v) else Lookup(d, q)
  {
    if d != [] && d[0].0 != k {
      LookupPut(d[1..], k, v, q);
    }
  }

  lemma {:induction false} PutKeys<K, V>(d: Dict<K, V>, k: K, v: V, x: K)
    requires forall i :: 0 <= i < |d| ==> d[i].0 != x
    requires k != x
    ensures forall i :: 0 <= i < |Put(d, k, v)| ==> Put(d, k, v)[i].0 != x
  {
    if d != [] && d[0].0 != k {
      PutKeys(d[1..], k, v, x);
    }
  }

  lemma {:induction false} PutKeyed<K, V>(d: Dict<K, V>, k: K, v: V)
    requires Keyed(d)
    ensures Keyed(Put(d, k, v))
  {
    if d != [] && d[0].0 != k {
      PutKeyed(d[1..], k, v);
      PutKeys(d[1..], k, v, d[0].0);
    }
  }

  lemma {:induction false} LookupAt<K, V>(d: Dict<K, V>, i: nat)
    requires Keyed(d) && i < |d|
    ensures Lookup(d, d[i].0) == Some(d[i].1)
  {
    if i > 0 {
      LookupAt(d[1..], i - 1);
    }
  }

  lemma {:induction false} LookupLast<K, V>(d: Dict<K, V>, k: K)
    requires Keyed(d) && d != []
    ensures Lookup(d, k) == if d[|d| - 1].0 == k then Some(d[|d| - 1].1) else Lookup(d[..|d| - 1], k)
  {
    if |d| > 1 {
      LookupLast(d[1..], k);
      assert d[1..][..|d| - 2] == d[..|d| - 1][1..];
    }
  }

  function Total<K, V>(d: Dict<K, V>, f: (K, V) -> real): real {
    if d == [] then 0.0 else f(d[0].0, d[0].1) + Total(d[1..], f)
  }

  /** What a key contributed before it is overwritten. */
  function Share<K(==), V>(d: Dict<K, V>, k: K, f: (K, V) -> real): real {
    match Lookup(d, k)
    case None => 0.0
    case Some(v) => f(k, v)
  }

  lemma {:induction false} ShareOr<K, V>(d: Dict<K, V>, k: K, default: V, f: (K, V) -> real)
    requires f(k, default) == 0.0
    ensures Share(d, k, f) == f(k, LookupOr(d, k, default))
  {
  }

  lemma {:induction false} TotalPut<K, V>(d: Dict<K, V>, k: K, v: V, f: (K, V) -> real)
    ensures Total(Put(d, k, v), f) == Total(d, f) - Share(d, k, f) + f(k, v)
  {
    if d == [] {
    } else if d[0].0 == k {
      assert ([(k, v)] + d[1..])[1..] == d[1..];
    } else {
      TotalPut(d[1..], k, v, f);
      assert ([d[0]] + Put(d[1..], k, v))[1..] == Put(d[1..], k, v);
    }
  }

  lemma {:induction false} TotalOfLast<K, V>(d: Dict<K, V>, f: (K, V) -> real)
    requires d != []
    ensures Total(d, f) == Total(d[..|d| - 1], f) + f(d[|d| - 1].0, d[|d| - 1].1)
  {
    if |d| > 1 {
      TotalOfLast(d[1..], f);
      assert d[1..][..|d| - 2] == d[..|d| - 1][1..];
    }
  }

  /** If only one key contributes, the total is that key's. */
  lemma {:induction false} TotalOfOne<K, V>(d: Dict<K, V>, k: K, f: (K, V) -> real)
    requires Keyed(d) && forall i :: 0 <= i < |d| && d[i].0 != k ==> f(d[i].0, d[i].1) == 0.0
    ensures Total(d, f) == Share(d, k, f)
  {
    if d != [] {
      assert forall i :: 0 <= i < |d| - 1 ==> d[1..][i] == d[i + 1];
      TotalOfOne(d[1..], k, f);
      if d[0].0 == k {
        Absent(d[1..], k);
      }
    }
  }

  /** What every entry contributes, gathered in one bag. */
  function Bag<K, V, X>(d: Dict<K, V>, f: (K, V) -> multiset<X>): multiset<X> {
    if d == [] then multiset{} else f(d[0].0, d[0].1) + Bag(d[1..], f)
  }

  function BagShare<K(==), V, X>(d: Dict<K, V>, k: K, f: (K, V) -> multiset<X>): multiset<X> {
    match Lookup(d, k)
    case None => multiset{}
    case Some(v) => f(k, v)
  }

  lemma {:induction false} BagPut<K, V, X>(d: Dict<K, V>, k: K, v: V, f: (K, V) -> multiset<X>)
    ensures Bag(Put(d, k, v), f) + BagShare(d, k, f) == Bag(d, f) + f(k, v)
  {
    if d == [] {
      assert Bag(Put(d, k, v), f) == f(k, v);
    } else {
      var head, rest, share := f(d[0].0, d[0].1), Bag(d[1..], f), BagShare(d, k, f);
      if d[0].0 == k {
        assert ([(k, v)] + d[1..])[1..] == d[1..];
        assert Bag(Put(d, k, v), f) == f(k, v) + rest && share == head;
      } else {
        BagPut(d[1..], k, v, f);
        var put := Put(d[1..], k, v);
        assert ([d[0]] + put)[1..] == put;
        assert Bag(Put(d, k, v), f) == head + Bag(put, f) && BagShare(d[1..], k, f) == share;
        assert (head + Bag(put, f)) + share == head + (Bag(put, f) + share);
      }
    }
  }

  lemma {:induction false} BagLast<K, V, X>(d: Dict<K, V>, f: (K, V) -> multiset<X>)
    requires d != []
    ensures Bag(d, f) == Bag(d[..|d| - 1], f) + f(d[|d| - 1].0, d[|d| - 1].1)
  {
    if |d| > 1 {
      BagLast(d[1..], f);
      assert d[1..][..|d| - 2] == d[..|d| - 1][1..];
    }
  }

  /** If only one key contributes, the bag is that key's. */
  lemma {:induction false} BagOfOne<K, V, X>(d: Dict<K, V>, k: K, f: (K, V) -> multiset<X>)
    requires Keyed(d) && forall i :: 0 <= i < |d| && d[i].0 != k ==> f(d[i].0, d[i].1) == multiset{}
    ensures Bag(d, f) == BagShare(d, k, f)
  {
    if d != [] {
      assert forall i :: 0 <= i < |d| - 1 ==> d[1..][i] == d[i + 1];
      BagOfOne(d[1..], k, f);
      if d[0].0 == k {
        Absent(d[1..], k);
      }
    }
  }

  lemma {:induction false} Absent<K, V>(d: Dict<K, V>, k: K)
    requires forall i :: 0 <= i < |d| ==> d[i].0 != k
    ensures Lookup(d, k) == None
  {
    if d != [] {
      Absent(d[1..], k);
    }
  }

  // ----- Python's `sorted`, which is stable -----

  function Insert<T>(x: T, s: seq<T>, key: T -> int): seq<T> {
    if s == [] || key(x) <= key(s[0]) then [x] + s else [s[0]] + Insert(x, s[1..], key)
  }

  function SortBy<T>(s: seq<T>, key: T -> int): seq<T> {
    if s == [] then [] else Insert(s[0], SortBy(s[1..], key), key)
  }

  lemma {:induction false} InsertKeeps<T>(x: T, s: seq<T>, key: T -> int)
    ensures multiset(Insert(x, s, key)) == multiset{x} + multiset(s)
  {
    if s != [] && key(x) > key(s[0]) {
      InsertKeeps(x, s[1..], key);
      assert s == [s[0]] + s[1..];
    }
  }

  lemma {:induction false} InsertIn<T>(x: T, s: seq<T>, key: T -> int, e: T)
    requires e in Insert(x, s, key)
    ensures e == x || e in s
  {
    InsertKeeps(x, s, key);
    assert e in multiset(Insert(x, s, key));
  }

  lemma {:induction false} SortKeeps<T>(s: seq<T>, key: T -> int)
    ensures multiset(SortBy(s, key)) == multiset(s)
  {
    if s != [] {
      SortKeeps(s[1..], key);
      InsertKeeps(s[0], SortBy(s[1..], key), key);
      assert s == [s[0]] + s[1..];
    }
  }

  ghost predicate Sorted<T>(s: seq<T>, key: T -> int) {
    forall i, j :: 0 <= i < j < |s| ==> key(s[i]) <= key(s[j])
  }

  lemma {:induction false} InsertSorted<T>(x: T, s: seq<T>, key: T -> int)
    requires Sorted(s, key)
    ensures Sorted(Insert(x, s, key), key)
  {
    if s != [] && key(x) > key(s[0]) {
      var t := Insert(x, s[1..], key);
      InsertSorted(x, s[1..], key);
      forall i | 0 <= i < |t| ensures key(s[0]) <= key(t[i]) {
        InsertIn(x, s[1..], key, t[i]);
      }
    }
  }

  lemma {:induction false} SortSorted<T>(s: seq<T>, key: T -> int)
    ensures Sorted(SortBy(s, key), key)
  {
    if s != [] {
      SortSorted(s[1..], key);
      InsertSorted(s[0], SortBy(s[1..], key), key);
    }
  }
}
