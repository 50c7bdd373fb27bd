/** Comparison callbacks, stable sorting as a mathematical function, and the
    facts about merging that the list code is proved against.

    Elements are compared through a key: `key` plays the part of reading the
    fields an element points to, `cmp` that of the C comparison callback. */
module Ordering {

  /** What every `CompareFunc` of the library has to be: a total preorder whose
      sign flips when its arguments are swapped. */
  ghost predicate Comparison<T(!new)>(cmp: (T, T) -> int) {
    && (forall a, b :: cmp(a, b) <= 0 <==> cmp(b, a) >= 0)
    && (forall a, b, c :: cmp(a, b) <= 0 && cmp(b, c) <= 0 ==> cmp(a, c) <= 0)
  }

  ghost predicate Sorted<L, T>(s: seq<L>, key: L -> T, cmp: (T, T) -> int) {
    forall i, j :: 0 <= i < j < |s| ==> cmp(key(s[i]), key(s[j])) <= 0
  }

  /** The elements of `s` that compare equal to `x`, in order. */
  ghost function Class<L, T>(s: seq<L>, key: L -> T, cmp: (T, T) -> int, x: T): (c: seq<L>)
    ensures |c| <= |s|
    ensures forall e :: e in c ==> e in s && cmp(key(e), x) == 0
  {
    if s == [] then []
    else if cmp(key(s[0]), x) == 0 then [s[0]] + Class(s[1..], key, cmp, x)
    else Class(s[1..], key, cmp, x)
  }

  /** Place `x` before the first element that is not smaller. */
  function Insert<L, T>(s: seq<L>, key: L -> T, cmp: (T, T) -> int, x: L): seq<L> {
    if s == [] || cmp(key(s[0]), key(x)) >= 0 then [x] + s
    else [s[0]] + Insert(s[1..], key, cmp, x)
  }

  function StableSort<L, T>(s: seq<L>, key: L -> T, cmp: (T, T) -> int): seq<L> {
    if s == [] then [] else Insert(StableSort(s[1..], key, cmp), key, cmp, s[0])
  }

  /** Merge two runs; ties are taken from the first. */
  function Merge<L, T>(a: seq<L>, b: seq<L>, key: L -> T, cmp: (T, T) -> int): seq<L> {
    if a == [] then b
    else if b == [] then a
    else if cmp(key(a[0]), key(b[0])) <= 0 then [a[0]] + Merge(a[1..], b, key, cmp)
    else [b[0]] + Merge(a, b[1..], key, cmp)
  }

  // ---------------------------------------------------------------- insertion

  lemma {:induction false} InsertPermutes<L, T>(s: seq<L>, key: L -> T, cmp: (T, T) -> int, x: L)
    ensures multiset(Insert(s, key, cmp, x)) == multiset(s) + multiset{x}
    ensures |Insert(s, key, cmp, x)| == |s| + 1
    ensures forall e :: e in Insert(s, key, cmp, x) <==> e == x || e in s
  {
    if s == [] || cmp(key(s[0]), key(x)) >= 0 {
    } else {
      InsertPermutes(s[1..], key, cmp, x);
      assert s == [s[0]] + s[1..];
    }
  }

  lemma {:induction false} InsertKeepsSorted<L, T(!new)>(s: seq<L>, key: L -> T, cmp: (T, T) -> int, x: L)
    requires Comparison(cmp) && Sorted(s, key, cmp)
    ensures Sorted(Insert(s, key, cmp, x), key, cmp)
  {
    if s == [] {
    } else if cmp(key(s[0]), key(x)) >= 0 {
      assert cmp(key(x), key(s[0])) <= 0;
      forall e | e in s
        ensures cmp(key(x), key(e)) <= 0
      {
        HeadIsSmallest(s, key, cmp, e);
      }
      PrependSorted(x, s, key, cmp);
    } else {
      var t := Insert(s[1..], key, cmp, x);
      InsertKeepsSorted(s[1..], key, cmp, x);
      InsertPermutes(s[1..], key, cmp, x);
      forall e | e in Insert(s[1..], key, cmp, x)
        ensures cmp(key(s[0]), key(e)) <= 0
      {
        assert e in multiset(Insert(s[1..], key, cmp, x));
        if e in s[1..] {
          TailMember(s, e);
          HeadIsSmallest(s, key, cmp, e);
        }
      }
      PrependSorted(s[0], t, key, cmp);
    }
  }

  lemma TailMember<L>(s: seq<L>, e: L)
    requires s != [] && e in s[1..]
    ensures e in s
  {
    var i :| 0 <= i < |s| - 1 && s[1..][i] == e;
    assert s[i + 1] == e;
  }

  lemma {:induction false} ClassConcat<L, T>(a: seq<L>, b: seq<L>, key: L -> T, cmp: (T, T) -> int, x: T)
    ensures Class(a + b, key, cmp, x) == Class(a, key, cmp, x) + Class(b, key, cmp, x)
  {
    if a == [] {
      assert a + b == b;
    } else {
      assert (a + b)[1..] == a[1..] + b;
      ClassConcat(a[1..], b, key, cmp, x);
    }
  }

  lemma EqualToBoth<T(!new)>(cmp: (T, T) -> int, a: T, b: T, v: T)
    requires Comparison(cmp) && cmp(a, v) == 0 && cmp(b, v) == 0
    ensures cmp(a, b) == 0
  {
    assert cmp(v, a) <= 0 && cmp(v, b) <= 0;
  }

  /** Passing over elements that are strictly smaller than `x` does not change
      any class: either they or `x` are outside it. */
  lemma {:induction false} InsertKeepsClass<L, T(!new)>(s: seq<L>, key: L -> T, cmp: (T, T) -> int, x: L, v: T)
    requires Comparison(cmp)
    ensures Class(Insert(s, key, cmp, x), key, cmp, v) == Class([x] + s, key, cmp, v)
  {
    if s == [] || cmp(key(s[0]), key(x)) >= 0 {
    } else {
      InsertKeepsClass(s[1..], key, cmp, x, v);
      var t := Insert(s[1..], key, cmp, x);
      assert ([s[0]] + t)[1..] == t;
      assert ([x] + s[1..])[1..] == s[1..];
      assert ([x] + s)[1..] == s;
      if cmp(key(x), v) == 0 {
        if cmp(key(s[0]), v) == 0 {
          EqualToBoth(cmp, key(s[0]), key(x), v);
        }
      }
    }
  }

  // ------------------------------------------------------------------- sorting

  lemma {:induction false} StableSortPermutes<L, T>(s: seq<L>, key: L -> T, cmp: (T, T) -> int)
    ensures multiset(StableSort(s, key, cmp)) == multiset(s)
    ensures |StableSort(s, key, cmp)| == |s|
    ensures forall e :: e in StableSort(s, key, cmp) <==> e in s
  {
    if s != [] {
      StableSortPermutes(s[1..], key, cmp);
      InsertPermutes(StableSort(s[1..], key, cmp), key, cmp, s[0]);
      assert s == [s[0]] + s[1..];
    }
  }

  lemma {:induction false} StableSortSorts<L, T(!new)>(s: seq<L>, key: L -> T, cmp: (T, T) -> int)
    requires Comparison(cmp)
    ensures Sorted(StableSort(s, key, cmp), key, cmp)
  {
    if s != [] {
      StableSortSorts(s[1..], key, cmp);
      InsertKeepsSorted(StableSort(s[1..], key, cmp), key, cmp, s[0]);
    }
  }

  lemma {:induction false} StableSortIsStable<L, T(!new)>(s: seq<L>, key: L -> T, cmp: (T, T) -> int, v: T)
    requires Comparison(cmp)
    ensures Class(StableSort(s, key, cmp), key, cmp, v) == Class(s, key, cmp, v)
  {
    if s != [] {
      var r := StableSort(s[1..], key, cmp);
      StableSortIsStable(s[1..], key, cmp, v);
      InsertKeepsClass(r, key, cmp, s[0], v);
      assert ([s[0]] + r)[1..] == r;
    }
  }

  lemma OwnClass<L, T(!new)>(s: seq<L>, key: L -> T, cmp: (T, T) -> int)
    requires Comparison(cmp)
    ensures s != [] ==> s[0] in Class(s, key, cmp, key(s[0]))
  {
    if s != [] {
      assert cmp(key(s[0]), key(s[0])) == 0;
    }
  }

  /** Sorted order and the order inside each class leave no freedom, so
      `StableSort` is the only stable sorted arrangement. */
  lemma {:induction false} StableSortUnique<L, T(!new)>(s: seq<L>, t: seq<L>, key: L -> T, cmp: (T, T) -> int)
    requires Comparison(cmp) && Sorted(s, key, cmp) && Sorted(t, key, cmp)
    requires forall v :: Class(s, key, cmp, v) == Class(t, key, cmp, v)
    ensures s == t
  {
    hide Comparison, Class;
    if s == [] {
      OwnClass(t, key, cmp);
    } else if t == [] {
      OwnClass(s, key, cmp);
    } else {
      SameHead(s, t, key, cmp);
      forall v
        ensures Class(s[1..], key, cmp, v) == Class(t[1..], key, cmp, v)
      {
        TailClass(s, t, key, cmp, v);
      }
      StableSortUnique(s[1..], t[1..], key, cmp);
      assert s == [s[0]] + s[1..] && t == [t[0]] + t[1..];
    }
  }

  lemma TailClass<L, T>(s: seq<L>, t: seq<L>, key: L -> T, cmp: (T, T) -> int, v: T)
    requires s != [] && t != [] && s[0] == t[0]
    requires Class(s, key, cmp, v) == Class(t, key, cmp, v)
    ensures Class(s[1..], key, cmp, v) == Class(t[1..], key, cmp, v)
  {
    if cmp(key(s[0]), v) == 0 {
      assert Class(s[1..], key, cmp, v) == Class(s, key, cmp, v)[1..];
      assert Class(t[1..], key, cmp, v) == Class(t, key, cmp, v)[1..];
    }
  }

  lemma HeadIsSmallest<L, T(!new)>(s: seq<L>, key: L -> T, cmp: (T, T) -> int, e: L)
    requires Comparison(cmp) && Sorted(s, key, cmp) && e in s
    ensures cmp(key(s[0]), key(e)) <= 0
  {
    var i :| 0 <= i < |s| && s[i] == e;
    if i == 0 {
      assert cmp(key(e), key(e)) <= 0;
    }
  }

  lemma SameHead<L, T(!new)>(s: seq<L>, t: seq<L>, key: L -> T, cmp: (T, T) -> int)
    requires Comparison(cmp) && Sorted(s, key, cmp) && Sorted(t, key, cmp)
    requires s != [] && t != []
    requires forall v :: Class(s, key, cmp, v) == Class(t, key, cmp, v)
    ensures s[0] == t[0]
  {
    var vs, vt := key(s[0]), key(t[0]);
    assert cmp(vs, vs) == 0 && cmp(vt, vt) == 0;
    assert Class(s, key, cmp, vs)[0] == s[0];
    assert Class(t, key, cmp, vt)[0] == t[0];
    assert Class(t, key, cmp, vs)[0] == s[0] && s[0] in Class(t, key, cmp, vs);
    assert Class(s, key, cmp, vt)[0] == t[0] && t[0] in Class(s, key, cmp, vt);
    HeadIsSmallest(t, key, cmp, s[0]);
    HeadIsSmallest(s, key, cmp, t[0]);
    assert cmp(vt, vs) == 0;
    assert Class(t, key, cmp, vs)[0] == t[0];
  }

  // ------------------------------------------------------------------- merging

  lemma {:induction false} MergePermutes<L, T>(a: seq<L>, b: seq<L>, key: L -> T, cmp: (T, T) -> int)
    ensures multiset(Merge(a, b, key, cmp)) == multiset(a) + multiset(b)
    ensures |Merge(a, b, key, cmp)| == |a| + |b|
    ensures forall e :: e in Merge(a, b, key, cmp) ==> e in a || e in b
    decreases |a| + |b|
  {
    if a == [] || b == [] {
    } else if cmp(key(a[0]), key(b[0])) <= 0 {
      MergePermutes(a[1..], b, key, cmp);
      assert a == [a[0]] + a[1..];
    } else {
      MergePermutes(a, b[1..], key, cmp);
      assert b == [b[0]] + b[1..];
    }
  }

  lemma PrependSorted<L, T>(x: L, s: seq<L>, key: L -> T, cmp: (T, T) -> int)
    requires Sorted(s, key, cmp)
    requires forall e :: e in s ==> cmp(key(x), key(e)) <= 0
    ensures Sorted([x] + s, key, cmp)
  {
  }

  lemma {:induction false} MergeSorts<L, T(!new)>(a: seq<L>, b: seq<L>, key: L -> T, cmp: (T, T) -> int)
    requires Comparison(cmp) && Sorted(a, key, cmp) && Sorted(b, key, cmp)
    ensures Sorted(Merge(a, b, key, cmp), key, cmp)
    decreases |a| + |b|
  {
    if a == [] || b == [] {
    } else if cmp(key(a[0]), key(b[0])) <= 0 {
      var m := Merge(a[1..], b, key, cmp);
      MergeSorts(a[1..], b, key, cmp);
      MergePermutes(a[1..], b, key, cmp);
      forall e | e in m
        ensures cmp(key(a[0]), key(e)) <= 0
      {
        if e in a[1..] {
          HeadIsSmallest(a, key, cmp, e);
        } else {
          HeadIsSmallest(b, key, cmp, e);
        }
      }
      PrependSorted(a[0], m, key, cmp);
    } else {
      var m := Merge(a, b[1..], key, cmp);
      MergeSorts(a, b[1..], key, cmp);
      MergePermutes(a, b[1..], key, cmp);
      forall e | e in m
        ensures cmp(key(b[0]), key(e)) <= 0
      {
        if e in b[1..] {
          HeadIsSmallest(b, key, cmp, e);
        } else {
          HeadIsSmallest(a, key, cmp, e);
        }
      }
      PrependSorted(b[0], m, key, cmp);
    }
  }

  lemma NothingEqualBelow<L, T(!new)>(a: seq<L>, key: L -> T, cmp: (T, T) -> int, v: T)
    requires Comparison(cmp) && Sorted(a, key, cmp)
    requires a != [] ==> cmp(key(a[0]), v) > 0
    ensures Class(a, key, cmp, v) == []
  {
    if e :| e in Class(a, key, cmp, v) {
      HeadIsSmallest(a, key, cmp, e);
    }
  }

  lemma {:induction false} MergeIsStable<L, T(!new)>(a: seq<L>, b: seq<L>, key: L -> T, cmp: (T, T) -> int, v: T)
    requires Comparison(cmp) && Sorted(a, key, cmp)
    ensures Class(Merge(a, b, key, cmp), key, cmp, v) == Class(a, key, cmp, v) + Class(b, key, cmp, v)
    decreases |a| + |b|
  {
    if a == [] || b == [] {
    } else if cmp(key(a[0]), key(b[0])) <= 0 {
      MergeIsStable(a[1..], b, key, cmp, v);
      assert ([a[0]] + Merge(a[1..], b, key, cmp))[1..] == Merge(a[1..], b, key, cmp);
    } else {
      MergeIsStable(a, b[1..], key, cmp, v);
      assert ([b[0]] + Merge(a, b[1..], key, cmp))[1..] == Merge(a, b[1..], key, cmp);
      if cmp(key(b[0]), v) == 0 {
        assert cmp(v, key(b[0])) <= 0;
        NothingEqualBelow(a, key, cmp, v);
      }
    }
  }

  /** The step merge sort rests on: merging two sorted halves sorts the whole. */
  lemma MergeOfSorts<L, T(!new)>(a: seq<L>, b: seq<L>, key: L -> T, cmp: (T, T) -> int)
    requires Comparison(cmp)
    ensures Merge(StableSort(a, key, cmp), StableSort(b, key, cmp), key, cmp) == StableSort(a + b, key, cmp)
  {
    var sa, sb := StableSort(a, key, cmp), StableSort(b, key, cmp);
    StableSortSorts(a, key, cmp);
    StableSortSorts(b, key, cmp);
    StableSortSorts(a + b, key, cmp);
    MergeSorts(sa, sb, key, cmp);
    forall v
      ensures Class(Merge(sa, sb, key, cmp), key, cmp, v) == Class(StableSort(a + b, key, cmp), key, cmp, v)
    {
      MergeIsStable(sa, sb, key, cmp, v);
      StableSortIsStable(a, key, cmp, v);
      StableSortIsStable(b, key, cmp, v);
      StableSortIsStable(a + b, key, cmp, v);
      ClassConcat(a, b, key, cmp, v);
    }
    StableSortUnique(Merge(sa, sb, key, cmp), StableSort(a + b, key, cmp), key, cmp);
  }

  /** Blocks of `w` consecutive elements, each sorted: what the list looks like
      between two passes of the bottom-up sort. */
  function BlockSort<L, T>(s: seq<L>, w: nat, key: L -> T, cmp: (T, T) -> int): seq<L>
    requires w > 0
    decreases |s|
  {
    if |s| <= w then StableSort(s, key, cmp)
    else StableSort(s[..w], key, cmp) + BlockSort(s[w..], w, key, cmp)
  }

  lemma BlockSortMeans<L, T>(s: seq<L>, w: nat, key: L -> T, cmp: (T, T) -> int)
    requires w > 0
    ensures BlockSort(s, w, key, cmp) ==
      if |s| <= w then StableSort(s, key, cmp) else StableSort(s[..w], key, cmp) + BlockSort(s[w..], w, key, cmp)
  {
    hide StableSort;
  }

  lemma {:induction false} BlockSortPermutes<L, T>(s: seq<L>, w: nat, key: L -> T, cmp: (T, T) -> int)
    requires w > 0
    ensures multiset(BlockSort(s, w, key, cmp)) == multiset(s)
    ensures |BlockSort(s, w, key, cmp)| == |s|
    decreases |s|
  {
    hide *;
    BlockSortMeans(s, w, key, cmp);
    if |s| <= w {
      StableSortPermutes(s, key, cmp);
    } else {
      StableSortPermutes(s[..w], key, cmp);
      BlockSortPermutes(s[w..], w, key, cmp);
      assert s == s[..w] + s[w..];
    }
  }

  lemma {:induction false} BlocksOfOne<L, T>(s: seq<L>, key: L -> T, cmp: (T, T) -> int)
    ensures BlockSort(s, 1, key, cmp) == s
  {
    if |s| <= 1 {
      if |s| == 1 {
        assert s[1..] == [];
        assert StableSort(s, key, cmp) == [s[0]];
      }
    } else {
      BlocksOfOne(s[1..], key, cmp);
      assert s[..1][1..] == [];
      assert StableSort(s[..1], key, cmp) == [s[0]];
    }
  }
}
