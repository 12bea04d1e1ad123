/** Ordered tables. The database returns listings ordered by name and photos
    ordered by `(ordine, id)`; both are modelled as a sequence kept strictly
    sorted by a key, into which new rows are inserted. */
module Ordering {
  import opened Wrappers

  ghost predicate IsStrictTotalOrder<K(!new)>(lt: (K, K) -> bool) {
    && (forall a :: !lt(a, a))
    && (forall a, b, c :: lt(a, b) && lt(b, c) ==> lt(a, c))
    && (forall a, b :: a != b ==> lt(a, b) || lt(b, a))
  }

  /** Strictly increasing keys: the order is the query order and no two rows
      share a key. */
  predicate SortedBy<T, K>(s: seq<T>, key: T -> K, lt: (K, K) -> bool) {
    forall i, j :: 0 <= i < j < |s| ==> lt(key(s[i]), key(s[j]))
  }

  predicate HasKey<T, K(==)>(s: seq<T>, key: T -> K, k: K) {
    exists i :: 0 <= i < |s| && key(s[i]) == k
  }

  /** Inserts `x` at its place in the key order; `None` when a row with the
      same key is already there. */
  function InsertBy<T, K(==)>(s: seq<T>, x: T, key: T -> K, lt: (K, K) -> bool): Option<seq<T>> {
    if s == [] then Some([x])
    else if key(s[0]) == key(x) then None
    else if lt(key(x), key(s[0])) then Some([x] + s)
    else
      match InsertBy(s[1..], x, key, lt)
      case None => None
      case Some(r) => Some([s[0]] + r)
  }

  lemma SortedTail<T, K>(s: seq<T>, key: T -> K, lt: (K, K) -> bool)
    requires |s| > 0 && SortedBy(s, key, lt)
    ensures SortedBy(s[1..], key, lt)
  {
    forall i, j | 0 <= i < j < |s| - 1
      ensures lt(key(s[1..][i]), key(s[1..][j]))
    {
      assert s[1..][i] == s[i + 1] && s[1..][j] == s[j + 1];
    }
  }

  lemma SortedCons<T, K>(h: T, s: seq<T>, key: T -> K, lt: (K, K) -> bool)
    requires SortedBy(s, key, lt)
    requires forall j :: 0 <= j < |s| ==> lt(key(h), key(s[j]))
    ensures SortedBy([h] + s, key, lt)
  {
    var r := [h] + s;
    forall i, j | 0 <= i < j < |r|
      ensures lt(key(r[i]), key(r[j]))
    {
      assert r[j] == s[j - 1];
      if i > 0 {
        assert r[i] == s[i - 1];
      }
    }
  }

  /** A key below the first key of a sorted table is below every key in it. */
  lemma BelowFirst<T, K(!new)>(s: seq<T>, k: K, key: T -> K, lt: (K, K) -> bool)
    requires IsStrictTotalOrder(lt)
    requires SortedBy(s, key, lt) && |s| > 0 && lt(k, key(s[0]))
    ensures forall j :: 0 <= j < |s| ==> lt(k, key(s[j]))
    ensures !HasKey(s, key, k)
  {
    forall j | 0 <= j < |s|
      ensures lt(k, key(s[j]))
    {
      if j > 0 {
        assert lt(key(s[0]), key(s[j]));
      }
    }
  }

  lemma HasKeyTail<T, K>(s: seq<T>, k: K, key: T -> K)
    requires |s| > 0 && key(s[0]) != k
    ensures HasKey(s, key, k) <==> HasKey(s[1..], key, k)
  {
    if HasKey(s, key, k) {
      var i :| 0 <= i < |s| && key(s[i]) == k;
      assert s[1..][i - 1] == s[i];
    }
    if HasKey(s[1..], key, k) {
      var i :| 0 <= i < |s| - 1 && key(s[1..][i]) == k;
      assert s[i + 1] == s[1..][i];
    }
  }

  /** Every row of a sorted table sits above its first key. */
  lemma AboveHead<T, K>(s: seq<T>, x: T, r: seq<T>, key: T -> K, lt: (K, K) -> bool)
    requires |s| > 0 && SortedBy(s, key, lt)
    requires lt(key(s[0]), key(x))
    requires multiset(r) == multiset(s[1..]) + multiset{x}
    ensures forall j :: 0 <= j < |r| ==> lt(key(s[0]), key(r[j]))
  {
    forall j | 0 <= j < |r|
      ensures lt(key(s[0]), key(r[j]))
    {
      assert r[j] in multiset(r);
      if r[j] != x {
        assert r[j] in multiset(s[1..]);
        var m :| 0 <= m < |s| - 1 && s[1..][m] == r[j];
        assert s[m + 1] == r[j];
      }
    }
  }

  /** Putting the first row back in front of a sorted insertion into the
      rest gives a sorted insertion into the whole table. */
  lemma InsertAfterHead<T, K>(s: seq<T>, x: T, rt: seq<T>, key: T -> K, lt: (K, K) -> bool)
    requires |s| > 0 && SortedBy(s, key, lt) && SortedBy(rt, key, lt)
    requires lt(key(s[0]), key(x))
    requires multiset(rt) == multiset(s[1..]) + multiset{x}
    ensures SortedBy([s[0]] + rt, key, lt)
    ensures multiset([s[0]] + rt) == multiset(s) + multiset{x}
  {
    AboveHead(s, x, rt, key, lt);
    SortedCons(s[0], rt, key, lt);
    assert s == [s[0]] + s[1..];
  }

  /** Inserting keeps the table sorted, adds exactly the new row, and is
      refused exactly when the key is taken. */
  lemma {:induction false} InsertBySpec<T, K(!new)>(s: seq<T>, x: T, key: T -> K, lt: (K, K) -> bool)
    requires IsStrictTotalOrder(lt)
    requires SortedBy(s, key, lt)
    ensures InsertBy(s, x, key, lt).None? <==> HasKey(s, key, key(x))
    ensures InsertBy(s, x, key, lt).Some? ==>
              && SortedBy(InsertBy(s, x, key, lt).value, key, lt)
              && multiset(InsertBy(s, x, key, lt).value) == multiset(s) + multiset{x}
  {
    if s == [] {
    } else if key(s[0]) == key(x) {
      assert HasKey(s, key, key(x));
    } else if lt(key(x), key(s[0])) {
      BelowFirst(s, key(x), key, lt);
      SortedCons(x, s, key, lt);
    } else {
      var tail := s[1..];
      SortedTail(s, key, lt);
      InsertBySpec(tail, x, key, lt);
      HasKeyTail(s, key(x), key);
      match InsertBy(tail, x, key, lt)
      case None =>
      case Some(rt) =>
        InsertAfterHead(s, x, rt, key, lt);
    }
  }
}
