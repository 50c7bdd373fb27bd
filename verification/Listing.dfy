/** Records in a map, named by numbers, and the order a linked list keeps them in. */
module Listing {
  import opened Ordering

  /** The list holds every record of the map once. */
  ghost predicate Listed<V>(order: seq<nat>, m: map<nat, V>) {
    && (forall i, j :: 0 <= i < j < |order| ==> order[i] != order[j])
    && (forall k :: k in order <==> k in m)
  }

  /** The list without the link at `k`. */
  function Without<A>(xs: seq<A>, k: nat): seq<A>
    requires k < |xs|
  {
    xs[..k] + xs[k + 1..]
  }

  lemma WithoutAt<A>(xs: seq<A>, k: nat, i: nat)
    requires k < |xs| && i < |xs| - 1
    ensures |Without(xs, k)| == |xs| - 1
    ensures Without(xs, k)[i] == xs[if i < k then i else i + 1]
  {
  }

  lemma ListedAt<V>(order: seq<nat>, m: map<nat, V>, k: nat)
    requires Listed(order, m) && k < |order|
    ensures order[k] in m
  {
    assert order[k] in order;
  }

  lemma WithoutListed<V>(order: seq<nat>, m: map<nat, V>, k: nat)
    requires Listed(order, m) && k < |order|
    ensures Listed(Without(order, k), m - {order[k]})
  {
    var t := Without(order, k);
    forall s
      ensures s in t <==> s in m && s != order[k]
    {
      if s in t {
        var j :| 0 <= j < |t| && t[j] == s;
        assert order[if j < k then j else j + 1] == s;
      }
      if s in m && s != order[k] {
        var j :| 0 <= j < |order| && order[j] == s;
        assert t[if j < k then j else j - 1] == s;
      }
    }
  }

  lemma SameKeysListed<V>(order: seq<nat>, a: map<nat, V>, b: map<nat, V>)
    requires Listed(order, a) && a.Keys == b.Keys
    ensures Listed(order, b)
  {
    assert forall s :: s in b <==> s in b.Keys;
  }

  lemma {:induction false} MultisetDistinct(xs: seq<nat>)
    requires forall i, j :: 0 <= i < j < |xs| ==> xs[i] != xs[j]
    ensures forall x :: multiset(xs)[x] <= 1
  {
    if xs != [] {
      MultisetDistinct(xs[1..]);
      assert xs == [xs[0]] + xs[1..];
      assert xs[0] !in xs[1..];
      assert xs[0] !in multiset(xs[1..]);
    }
  }

  lemma DistinctMultiset(xs: seq<nat>)
    requires forall x :: multiset(xs)[x] <= 1
    ensures forall i, j :: 0 <= i < j < |xs| ==> xs[i] != xs[j]
  {
    forall i, j | 0 <= i < j < |xs|
      ensures xs[i] != xs[j]
    {
      assert xs == xs[..i] + [xs[i]] + xs[i + 1..j] + [xs[j]] + xs[j + 1..];
      assert multiset(xs)[xs[i]] <= 1;
    }
  }

  /** `list_insert_sorted` of a record that is not in the list. */
  lemma InsertListed<V, T>(order: seq<nat>, m: map<nat, V>, key: nat -> T, cmp: (T, T) -> int, x: nat)
    requires Listed(order, m - {x}) && x in m
    ensures Listed(Insert(order, key, cmp, x), m)
  {
    InsertPermutes(order, key, cmp, x);
    var t := Insert(order, key, cmp, x);
    assert x !in order;
    MultisetDistinct(order);
    forall y
      ensures multiset(t)[y] <= 1
    {
      if y == x {
        assert x !in multiset(order);
      }
    }
    DistinctMultiset(t);
    forall y
      ensures y in t <==> y in m
    {
      assert y in t <==> y in multiset(t);
    }
  }

  /** Sortedness only depends on the keys of what is in the list. */
  lemma SortedUnder<T>(order: seq<nat>, a: nat -> T, b: nat -> T, cmp: (T, T) -> int)
    requires Sorted(order, a, cmp) && forall k :: k in order ==> a(k) == b(k)
    ensures Sorted(order, b, cmp)
  {
  }

  lemma WithoutSorted<T>(order: seq<nat>, key: nat -> T, cmp: (T, T) -> int, k: nat)
    requires Sorted(order, key, cmp) && k < |order|
    ensures Sorted(Without(order, k), key, cmp)
  {
    var t := Without(order, k);
    forall i, j | 0 <= i < j < |t|
      ensures cmp(key(t[i]), key(t[j])) <= 0
    {
      WithoutAt(order, k, i);
      WithoutAt(order, k, j);
    }
  }
}
