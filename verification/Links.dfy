/** The doubly linked list of gift-ares/lib/as_list.c and the link functions of
    gift-ares/lib/as_util.c, on real links with `prev` and `next` pointers.

    A list is given by its head link. Its abstract value is the sequence of its
    links, passed along as a ghost argument where a method needs it. No list
    function of these two files changes the data pointer of an existing link. */
module Links {
  import opened Ordering

  class Link<T> {
    const data: T
    var prev: Link?<T>
    var next: Link?<T>

    constructor (data: T)
      ensures this.data == data && prev == null && next == null
    {
      this.data := data;
      prev := null;
      next := null;
    }
  }

  function Data<T>(l: Link<T>): T { l.data }

  ghost predicate Distinct<L>(s: seq<L>) {
    forall i, j :: 0 <= i < j < |s| ==> s[i] != s[j]
  }

  function At<T>(s: seq<Link<T>>, i: int): (l: Link?<T>) {
    if 0 <= i < |s| then s[i] else null
  }

  /** `head` starts a well-formed doubly linked list made of exactly the links `s`. */
  ghost predicate IsList<T>(head: Link?<T>, s: seq<Link<T>>)
    reads s
  {
    && head == At(s, 0)
    && Distinct(s)
    && (forall i {:trigger s[i].next} :: 0 <= i < |s| ==> s[i].next == At(s, i + 1))
    && (forall i {:trigger s[i].prev} :: 0 <= i < |s| ==> s[i].prev == At(s, i - 1))
  }

  // ------------------------------------------------------------- list_sort

  /** From index `from` on, `next` still follows `s`. */
  ghost predicate Chain<T>(s: seq<Link<T>>, from: nat, to: int)
    reads s
  {
    forall i {:trigger s[i].next} :: from <= i < to && i < |s| ==> s[i].next == At(s, i + 1)
  }

  /** The merged list under construction: linked in both directions, except that
      the `next` pointer of its last link is not set yet. */
  ghost predicate Building<T>(head: Link?<T>, tail: Link?<T>, out: seq<Link<T>>)
    reads out
  {
    && head == At(out, 0)
    && tail == At(out, |out| - 1)
    && Distinct(out)
    && (forall i {:trigger out[i].next} :: 0 <= i < |out| - 1 ==> out[i].next == At(out, i + 1))
    && (forall i {:trigger out[i].prev} :: 0 <= i < |out| ==> out[i].prev == At(out, i - 1))
  }

  function Min(a: nat, b: nat): nat { if a <= b then a else b }

  /** Merge the adjacent runs of length `w` pairwise. */
  ghost function MergeBlocks<L, T>(s: seq<L>, w: nat, key: L -> T, cmp: (T, T) -> int): seq<L>
    requires w > 0
    decreases |s|
  {
    if s == [] then []
    else
      var m, e := Min(w, |s|), Min(2 * w, |s|);
      Merge(s[..m], s[m..e], key, cmp) + MergeBlocks(s[e..], w, key, cmp)
  }

  ghost predicate Fresh<T>(s: seq<Link<T>>, from: nat, to: int, out: seq<Link<T>>) {
    forall i :: from <= i < to && i < |s| ==> s[i] !in out
  }

  /** Add link `e` to the merged list. */
  method AppendMerged<T>(head: Link?<T>, tail: Link?<T>, e: Link<T>, ghost out: seq<Link<T>>) returns (h: Link?<T>)
    requires Building(head, tail, out) && e !in out
    modifies e, tail
    ensures Building(h, e, out + [e])
    ensures e.next == old(e.next)
    ensures tail != null ==> tail.prev == old(tail.prev)
  {
    h := head;
    if tail != null {
      tail.next := e;
    } else {
      h := e;
    }
    e.prev := tail;
  }

  /** Choose the link the merge takes next, stepping `p` or `q` past it. */
  method TakeNext<T>(p0: Link?<T>, q0: Link?<T>, psize0: nat, qsize0: nat, cmp: (T, T) -> int,
                     ghost s: seq<Link<T>>, ghost a: nat, ghost mid: nat, ghost b: nat, ghost end: nat)
    returns (e: Link<T>, p: Link?<T>, q: Link?<T>, psize: nat, qsize: nat, ghost fromP: bool)
    requires a <= mid <= b <= end <= |s| && (psize0 > 0 || (qsize0 > 0 && q0 != null))
    requires psize0 == mid - a && (end == |s| || b + qsize0 == end) && b + qsize0 >= end
    requires (psize0 > 0 ==> p0 == s[a]) && q0 == At(s, b)
    requires Chain(s, a, mid - 1) && Chain(s, b, |s|)
    ensures fromP ==>
      a < mid && e == s[a] && psize == psize0 - 1 && q == q0 && qsize == qsize0 && (psize > 0 ==> p == s[a + 1])
    ensures !fromP ==> b < end && e == s[b] && psize == psize0 && p == p0 && qsize == qsize0 - 1 && q == At(s, b + 1)
    ensures Merge(s[a..mid], s[b..end], Data, cmp) ==
            [e] + (if fromP then Merge(s[a + 1..mid], s[b..end], Data, cmp)
                   else Merge(s[a..mid], s[b + 1..end], Data, cmp))
  {
    p, q, psize, qsize := p0, q0, psize0, qsize0;
    ghost var pa, qb := s[a..mid], s[b..end];
    if psize == 0 {
      assert pa == [] && qb != [];
      assert [s[b]] + s[b + 1..end] == qb;
      e := q; q := q.next; qsize := qsize - 1;
      fromP := false;
    } else if qsize == 0 || q == null {
      assert qb == [];
      assert [s[a]] + s[a + 1..mid] == pa;
      e := p; p := p.next; psize := psize - 1;
      fromP := true;
    } else if cmp(p.data, q.data) <= 0 {
      assert pa[1..] == s[a + 1..mid];
      e := p; p := p.next; psize := psize - 1;
      fromP := true;
    } else {
      assert qb[1..] == s[b + 1..end];
      e := q; q := q.next; qsize := qsize - 1;
      fromP := false;
    }
  }

  /** Facts about the part of the list a merge has not consumed yet. */
  ghost predicate Pending<T>(s: seq<Link<T>>, a: nat, mid: nat, b: nat, out: seq<Link<T>>)
    reads s
  {
    && Chain(s, a, mid - 1) && Chain(s, b, |s|)
    && Fresh(s, a, mid, out) && Fresh(s, b, |s|, out)
    && (forall l :: l in out ==> l in s)
  }

  /** The state of a merge between two rounds: `out` is merged, `s[a..mid]` and
      `s[b..end]` are still to come, and together they make `goal`. */
  ghost predicate Merging<T>(p: Link?<T>, q: Link?<T>, psize: nat, qsize: nat, head: Link?<T>, tail: Link?<T>,
      cmp: (T, T) -> int,
                             s: seq<Link<T>>, a: nat, mid: nat, b: nat, end: nat, out: seq<Link<T>>, goal: seq<Link<T>>)
    reads s, out
  {
    && Distinct(s) && a <= mid <= b <= end <= |s|
    && psize == mid - a && b + qsize >= end && (end == |s| || b + qsize == end)
    && (psize > 0 ==> p == s[a]) && q == At(s, b)
    && Pending(s, a, mid, b, out) && Building(head, tail, out)
    && out + Merge(s[a..mid], s[b..end], Data, cmp) == goal
  }

  /** One round of the merge: the next link moves to the merged list. */
  method MergeStep<T>(p0: Link?<T>, q0: Link?<T>, psize0: nat, qsize0: nat, head0: Link?<T>, tail: Link?<T>,
      cmp: (T, T) -> int,
                      ghost s: seq<Link<T>>, ghost a: nat, ghost mid: nat, ghost b: nat, ghost end: nat,
                          ghost out: seq<Link<T>>, ghost goal: seq<Link<T>>)
    returns (e: Link<T>, p: Link?<T>, q: Link?<T>, psize: nat, qsize: nat, head: Link?<T>, ghost a': nat, ghost b': nat)
    requires Merging(p0, q0, psize0, qsize0, head0, tail, cmp, s, a, mid, b, end, out, goal)
    requires psize0 > 0 || (qsize0 > 0 && q0 != null)
    modifies s
    ensures psize + qsize + 1 == psize0 + qsize0
    ensures Merging(p, q, psize, qsize, head, e, cmp, s, a', mid, b', end, out + [e], goal)
  {
    hide Merge;
    ghost var fromP;
    e, p, q, psize, qsize, fromP := TakeNext(p0, q0, psize0, qsize0, cmp, s, a, mid, b, end);
    a', b' := if fromP then a + 1 else a, if fromP then b else b + 1;
    assert e in s && e !in out;
    assert tail != null ==> tail in out;
    head := AppendMerged(head0, tail, e, out);
    AppendAssoc(out, e, Merge(s[a'..mid], s[b'..end], Data, cmp));
    FreshStays(s, a, mid, out, e, a');
    FreshStays(s, b, |s|, out, e, b');
  }

  lemma FreshStays<T>(s: seq<Link<T>>, from: nat, to: int, out: seq<Link<T>>, e: Link<T>, from': nat)
    requires Fresh(s, from, to, out) && from <= from'
    ensures (forall i :: from' <= i < to && i < |s| ==> s[i] != e) ==> Fresh(s, from', to, out + [e])
  {
  }

  lemma AppendAssoc<L>(a: seq<L>, x: L, b: seq<L>)
    ensures a + ([x] + b) == (a + [x]) + b
  {
  }

  /** What a finished merge hands to the next pair of runs. */
  ghost predicate Merged<T>(q: Link?<T>, head: Link?<T>, tail: Link?<T>, s: seq<Link<T>>, end: nat, out: seq<Link<T>>)
    reads s, out
  {
    && Distinct(s) && end <= |s| && q == At(s, end)
    && Chain(s, end, |s|) && Fresh(s, end, |s|, out)
    && (forall l :: l in out ==> l in s)
    && Building(head, tail, out)
  }

  lemma MergingDone<T>(p: Link?<T>, q: Link?<T>, psize: nat, qsize: nat, head: Link?<T>, tail: Link?<T>,
      cmp: (T, T) -> int,
                       s: seq<Link<T>>, a: nat, mid: nat, b: nat, end: nat, out: seq<Link<T>>, goal: seq<Link<T>>)
    requires Merging(p, q, psize, qsize, head, tail, cmp, s, a, mid, b, end, out, goal)
    requires psize == 0 && (qsize == 0 || q == null)
    ensures out == goal && Merged(q, head, tail, s, end, out)
  {
    assert s[a..mid] == [] && s[b..end] == [];
    assert out + [] == out;
  }

  lemma MergingStarts<T>(p: Link<T>, q: Link?<T>, psize: nat, insize: nat, head: Link?<T>, tail: Link?<T>,
      cmp: (T, T) -> int,
                         s: seq<Link<T>>, start: nat, mid: nat, end: nat, out: seq<Link<T>>, goal: seq<Link<T>>)
    requires Merged(p, head, tail, s, start, out)
    requires psize > 0 && mid == start + psize <= |s| && q == At(s, mid) && end == Min(mid + insize, |s|)
    requires goal == out + Merge(s[start..mid], s[mid..end], Data, cmp)
    ensures Merging(p, q, psize, insize, head, tail, cmp, s, start, mid, mid, end, out, goal)
  {
  }

  ghost function RunPair<T>(s: seq<Link<T>>, start: nat, mid: nat, insize: nat, cmp: (T, T) -> int): seq<Link<T>>
    requires start <= mid <= |s|
  {
    Merge(s[start..mid], s[mid..Min(mid + insize, |s|)], Data, cmp)
  }

  /** Merge the run of `psize0` links at `p0` with the run of up to `insize`
      links at `q0`, adding the result to the merged list. */
  method MergeRuns<T>(p0: Link<T>, q0: Link?<T>, psize0: nat, insize: nat, head0: Link?<T>, tail0: Link?<T>,
      cmp: (T, T) -> int,
                      ghost s: seq<Link<T>>, ghost start: nat, ghost out0: seq<Link<T>>)
    returns (q: Link?<T>, head: Link?<T>, tail: Link?<T>, ghost end: nat, ghost out: seq<Link<T>>)
    requires Merged(p0, head0, tail0, s, start, out0)
    requires psize0 > 0 && start + psize0 <= |s| && q0 == At(s, start + psize0)
    modifies s
    ensures end == Min(start + psize0 + insize, |s|)
    ensures out == out0 + RunPair(s, start, start + psize0, insize, cmp)
    ensures Merged(q, head, tail, s, end, out)
  {
    ghost var mid: nat := start + psize0;
    end := Min(mid + insize, |s|);
    ghost var goal := out0 + RunPair(s, start, mid, insize, cmp);
    hide Building, Chain, Fresh, Pending, Distinct;
    MergingStarts(p0, q0, psize0, insize, head0, tail0, cmp, s, start, mid, end, out0, goal);
    var p: Link?<T>, psize, qsize := p0, psize0, insize;
    q, head, tail, out := q0, head0, tail0, out0;
    ghost var a: nat, b: nat := start, mid;
    while psize > 0 || (qsize > 0 && q != null)
      invariant Merging(p, q, psize, qsize, head, tail, cmp, s, a, mid, b, end, out, goal)
      decreases psize + qsize
    {
      var e: Link<T>;
      e, p, q, psize, qsize, head, a, b := MergeStep(p, q, psize, qsize, head, tail, cmp, s, a, mid, b, end, out, goal);
      tail := e;
      out := out + [e];
    }
    MergingDone(p, q, psize, qsize, head, tail, cmp, s, a, mid, b, end, out, goal);
  }

  /** Walk `insize` links along from `p`, or to the end of the list. */
  method StepAlong<T>(p: Link<T>, insize: nat, ghost head: Link?<T>, ghost tail: Link?<T>,
                      ghost s: seq<Link<T>>, ghost at: nat, ghost out: seq<Link<T>>) returns (q: Link?<T>, psize: nat)
    requires insize > 0 && Merged(p, head, tail, s, at, out)
    ensures at < |s| && psize == Min(insize, |s| - at) && q == At(s, at + psize)
  {
    hide Building;
    q := p;
    psize := 0;
    var i := 0;
    while i < insize
      invariant 0 <= i <= insize && psize == i && at + psize < |s| && q == s[at + psize]
    {
      psize := psize + 1;
      q := q.next;
      if q == null {
        break;
      }
      i := i + 1;
    }
  }

  /** How many merges a pass over `n` links makes. */
  ghost function Merges(n: nat, w: nat): nat
    requires w > 0
  {
    if n == 0 then 0 else 1 + Merges(n - Min(2 * w, n), w)
  }

  /** What a pass has done so far, and what remains, is the whole pass. */
  ghost predicate PassInvariant<T>(s: seq<Link<T>>, out: seq<Link<T>>, at: nat, insize: nat, nmerges: nat,
      cmp: (T, T) -> int) {
    && at <= |s| && insize > 0
    && out + MergeBlocks(s[at..], insize, Data, cmp) == MergeBlocks(s, insize, Data, cmp)
    && nmerges + Merges(|s| - at, insize) == Merges(|s|, insize)
  }

  lemma PassStarts<T>(head: Link<T>, s: seq<Link<T>>, insize: nat, cmp: (T, T) -> int)
    requires IsList(head, s) && insize > 0
    ensures Merged(head, null, null, s, 0, []) && PassInvariant(s, [], 0, insize, 0, cmp)
  {
    assert s[0..] == s;
    assert [] + MergeBlocks(s, insize, Data, cmp) == MergeBlocks(s, insize, Data, cmp);
  }

  lemma PassAdvances<T>(s: seq<Link<T>>, out0: seq<Link<T>>, at0: nat, out: seq<Link<T>>, at: nat, psize: nat,
      insize: nat, nmerges: nat, cmp: (T, T) -> int)
    requires PassInvariant(s, out0, at0, insize, nmerges, cmp)
    requires at0 < |s| && psize == Min(insize, |s| - at0) && at == Min(at0 + psize + insize, |s|)
    requires out == out0 + RunPair(s, at0, at0 + psize, insize, cmp)
    ensures at0 < at && PassInvariant(s, out, at, insize, nmerges + 1, cmp)
  {
    hide Merge;
    var r := s[at0..];
    var m, e := Min(insize, |r|), Min(2 * insize, |r|);
    assert r[..m] == s[at0..at0 + psize] && r[m..e] == s[at0 + psize..at] && r[e..] == s[at..];
    var pair, rest := RunPair(s, at0, at0 + psize, insize, cmp), MergeBlocks(s[at..], insize, Data, cmp);
    assert MergeBlocks(r, insize, Data, cmp) == pair + rest;
    assert out0 + (pair + rest) == out + rest;
  }

  lemma PassDone<T>(p: Link?<T>, head: Link?<T>, tail: Link?<T>, s: seq<Link<T>>, out: seq<Link<T>>, at: nat,
      insize: nat, nmerges: nat, cmp: (T, T) -> int)
    requires Merged(p, head, tail, s, at, out) && PassInvariant(s, out, at, insize, nmerges, cmp) && p == null &&
        s != []
    ensures out == MergeBlocks(s, insize, Data, cmp)
    ensures nmerges <= 1 <==> |s| <= 2 * insize
  {
    assert s[at..] == [];
    assert out + [] == out;
    assert Merges(|s|, insize) == 1 + Merges(|s| - Min(2 * insize, |s|), insize);
    assert Merges(0, insize) == 0;
  }

  /** Close the merged list by ending its last link. */
  method FinishList<T>(head: Link?<T>, tail: Link<T>, ghost s: seq<Link<T>>, ghost out: seq<Link<T>>)
    requires Merged(null, head, tail, s, |s|, out)
    modifies s
    ensures IsList(head, out)
  {
    assert tail in out;
    tail.next := null;
  }

  lemma PassTail<T>(p: Link?<T>, head: Link?<T>, tail: Link?<T>, s: seq<Link<T>>, at: nat, out: seq<Link<T>>,
      insize: nat, cmp: (T, T) -> int)
    requires Merged(p, head, tail, s, at, out) && p == null && s != [] && insize > 0 &&
        out == MergeBlocks(s, insize, Data, cmp)
    ensures tail != null && at == |s|
  {
    MergeBlocksPermutes(s, insize, Data, cmp);
  }

  lemma {:induction false} MergeBlocksPermutes<L, T>(s: seq<L>, w: nat, key: L -> T, cmp: (T, T) -> int)
    requires w > 0
    ensures multiset(MergeBlocks(s, w, key, cmp)) == multiset(s)
    ensures |MergeBlocks(s, w, key, cmp)| == |s|
    decreases |s|
  {
    hide Merge;
    if s != [] {
      var m, e := Min(w, |s|), Min(2 * w, |s|);
      MergePermutes(s[..m], s[m..e], key, cmp);
      MergeBlocksPermutes(s[e..], w, key, cmp);
      assert s == s[..m] + s[m..e] + s[e..];
    }
  }

  /** One pass of the sort: merge the adjacent runs of `insize` links pairwise. */
  method MergePass<T>(head0: Link<T>, insize: nat, cmp: (T, T) -> int, ghost s: seq<Link<T>>)
    returns (head: Link?<T>, nmerges: nat)
    requires IsList(head0, s) && insize > 0
    modifies s
    ensures IsList(head, MergeBlocks(s, insize, Data, cmp))
    ensures nmerges <= 1 <==> |s| <= 2 * insize
  {
    assert s != [];
    PassStarts(head0, s, insize, cmp);
    hide *;
    var p: Link?<T> := head0;
    var tail: Link?<T> := null;
    head, nmerges := null, 0;
    ghost var at: nat, out: seq<Link<T>> := 0, [];
    while p != null
      invariant Merged(p, head, tail, s, at, out)
      invariant PassInvariant(s, out, at, insize, nmerges, cmp)
      decreases |s| - at
    {
      var q, psize := StepAlong(p, insize, head, tail, s, at, out);
      ghost var at0, out0 := at, out;
      p, head, tail, at, out := MergeRuns(p, q, psize, insize, head, tail, cmp, s, at, out);
      PassAdvances(s, out0, at0, out, at, psize, insize, nmerges, cmp);
      nmerges := nmerges + 1;
    }
    PassDone(p, head, tail, s, out, at, insize, nmerges, cmp);
    PassTail(p, head, tail, s, at, out, insize, cmp);
    FinishList(head, tail, s, out);
  }

  lemma BlockSortLong<L, T>(s: seq<L>, w: nat, key: L -> T, cmp: (T, T) -> int)
    requires w > 0 && |s| > w
    ensures BlockSort(s, w, key, cmp) == StableSort(s[..w], key, cmp) + BlockSort(s[w..], w, key, cmp)
  {
  }

  lemma BlockSortShort<L, T>(s: seq<L>, w: nat, key: L -> T, cmp: (T, T) -> int)
    requires w > 0 && |s| <= w
    ensures BlockSort(s, w, key, cmp) == StableSort(s, key, cmp)
  {
  }

  /** Merging a run of `w` with the one behind it. */
  lemma MergeFirstTwo<L, T>(r0: seq<L>, r1: seq<L>, rest: seq<L>, w: nat, key: L -> T, cmp: (T, T) -> int)
    requires |r0| == w > 0 && |r1| <= w && (rest != [] ==> |r1| == w)
    ensures MergeBlocks(r0 + r1 + rest, w, key, cmp) == Merge(r0, r1, key, cmp) + MergeBlocks(rest, w, key, cmp)
  {
    hide Merge;
    var b := r0 + r1 + rest;
    var e := Min(2 * w, |b|);
    assert b[..w] == r0 && b[w..e] == r1 && b[e..] == rest;
  }

  /** Merging sorted runs of `w` pairwise gives sorted runs of `2 * w`. */
  lemma {:induction false} PassDoublesBlocks<L, T(!new)>(s: seq<L>, w: nat, key: L -> T, cmp: (T, T) -> int)
    requires Comparison(cmp) && w > 0
    ensures MergeBlocks(BlockSort(s, w, key, cmp), w, key, cmp) == BlockSort(s, 2 * w, key, cmp)
    decreases |s|
  {
    hide Merge, StableSort, Comparison, BlockSort, MergeBlocks;
    if |s| <= w {
      OneRun(s, w, key, cmp);
    } else {
      var n := Min(2 * w, |s|);
      var a, b := s[..w], s[w..n];
      var r0, r1 := StableSort(a, key, cmp), StableSort(b, key, cmp);
      StableSortPermutes(a, key, cmp);
      StableSortPermutes(b, key, cmp);
      MergeOfSorts(a, b, key, cmp);
      assert a + b == s[..n];
      BlockSortLong(s, w, key, cmp);
      if |s| > 2 * w {
        assert s[w..][..w] == b && s[w..][w..] == s[n..];
        BlockSortLong(s[w..], w, key, cmp);
        var rest := BlockSort(s[n..], w, key, cmp);
        assert BlockSort(s, w, key, cmp) == r0 + r1 + rest;
        MergeFirstTwo(r0, r1, rest, w, key, cmp);
        PassDoublesBlocks(s[n..], w, key, cmp);
        BlockSortLong(s, 2 * w, key, cmp);
      } else {
        assert s[w..] == b && s[..n] == s;
        BlockSortShort(b, w, key, cmp);
        assert BlockSort(s, w, key, cmp) == r0 + r1 + [];
        MergeFirstTwo(r0, r1, [], w, key, cmp);
        MergeNone(w, key, cmp);
        BlockSortShort(s, 2 * w, key, cmp);
      }
    }
  }

  lemma MergeNone<L, T>(w: nat, key: L -> T, cmp: (T, T) -> int)
    requires w > 0
    ensures MergeBlocks([], w, key, cmp) == []
  {
  }

  lemma OneRun<L, T(!new)>(s: seq<L>, w: nat, key: L -> T, cmp: (T, T) -> int)
    requires Comparison(cmp) && |s| <= w && w > 0
    ensures MergeBlocks(BlockSort(s, w, key, cmp), w, key, cmp) == BlockSort(s, 2 * w, key, cmp)
  {
    hide Comparison;
    StableSortPermutes(s, key, cmp);
    var t := StableSort(s, key, cmp);
    assert t[..|t|] == t && t[|t|..] == [];
    assert t + [] == t;
  }

  /** A pass over sorted runs of `insize` leaves sorted runs of twice that. */
  method SortPass<T(!new)>(head0: Link<T>, insize: nat, cmp: (T, T) -> int, ghost s: seq<Link<T>>)
      returns (head: Link?<T>, nmerges: nat)
    requires insize > 0 && Comparison(cmp) && IsList(head0, BlockSort(s, insize, Data, cmp))
    modifies s
    ensures IsList(head, BlockSort(s, 2 * insize, Data, cmp))
    ensures nmerges <= 1 <==> |s| <= 2 * insize
  {
    hide *;
    ghost var blocks := BlockSort(s, insize, Data, cmp);
    BlockSortPermutes(s, insize, Data, cmp);
    SameLinks(s, blocks);
    head, nmerges := MergePass(head0, insize, cmp, blocks);
    PassDoublesBlocks(s, insize, Data, cmp);
  }

  /** `list_sort`: sorts the links themselves, keeping every pointer consistent.
      The result is the one stable sorted arrangement of the links (see
      `Ordering.StableSortUnique`), for any length and any total preorder. */
  method ListSort<T(!new)>(head0: Link?<T>, cmp: (T, T) -> int, ghost s: seq<Link<T>>) returns (head: Link?<T>)
    requires IsList(head0, s) && Comparison(cmp)
    modifies s
    ensures IsList(head, StableSort(s, Data, cmp))
  {
    hide *;
    head := head0;
    SortStarts(head, s, cmp);
    if head == null {
      return;
    }
    var insize := 1;
    while true
      invariant insize > 0
      invariant head != null && IsList(head, BlockSort(s, insize, Data, cmp))
      decreases |s| - insize
    {
      var nmerges;
      head, nmerges := SortPass(head, insize, cmp, s);
      if nmerges <= 1 {
        WholeBlock(s, 2 * insize, Data, cmp);
        return;
      }
      insize := insize * 2;
      NonEmptyList(head, s, insize, cmp);
    }
  }

  lemma SameLinks<T>(s: seq<Link<T>>, t: seq<Link<T>>)
    requires multiset(s) == multiset(t)
    ensures forall i :: 0 <= i < |t| ==> t[i] in s
  {
    forall i | 0 <= i < |t|
      ensures t[i] in s
    {
      assert t[i] in multiset(t);
    }
  }

  lemma SortStarts<T>(head: Link?<T>, s: seq<Link<T>>, cmp: (T, T) -> int)
    requires IsList(head, s)
    ensures IsList(head, BlockSort(s, 1, Data, cmp))
    ensures head == null ==> IsList(head, StableSort(s, Data, cmp))
    ensures head != null ==> s != []
  {
    BlocksOfOne(s, Data, cmp);
  }

  lemma WholeBlock<L, T>(s: seq<L>, w: nat, key: L -> T, cmp: (T, T) -> int)
    requires |s| <= w && w > 0
    ensures BlockSort(s, w, key, cmp) == StableSort(s, key, cmp)
  {
  }

  lemma NonEmptyList<T>(head: Link?<T>, s: seq<Link<T>>, w: nat, cmp: (T, T) -> int)
    requires s != [] && w > 0 && IsList(head, BlockSort(s, w, Data, cmp))
    ensures head != null
  {
    BlockSortPermutes(s, w, Data, cmp);
  }

  // ------------------------------------------- inserting and removing links

  ghost function InsertedAt<L>(s: seq<L>, i: nat, x: L): seq<L>
    requires i <= |s|
  {
    s[..i] + [x] + s[i..]
  }

  ghost function RemovedAt<L>(s: seq<L>, i: nat): seq<L>
    requires i < |s|
  {
    s[..i] + s[i + 1..]
  }

  lemma InsertedFacts<T>(s: seq<Link<T>>, i: nat, x: Link<T>)
    requires i <= |s| && Distinct(s) && x !in s
    ensures var t := InsertedAt(s, i, x);
      && |t| == |s| + 1 && Distinct(t)
      && (forall j :: j < i ==> At(t, j) == At(s, j))
      && At(t, i) == x
      && (forall j :: j > i ==> At(t, j) == At(s, j - 1))
  {
    var t := InsertedAt(s, i, x);
    forall j, k | 0 <= j < k < |t|
      ensures t[j] != t[k]
    {
      if j < i && k > i {
        assert t[j] == s[j] && t[k] == s[k - 1];
      }
    }
  }

  lemma RemovedFacts<T>(s: seq<Link<T>>, k: nat)
    requires k < |s| && Distinct(s)
    ensures var t := RemovedAt(s, k);
      && |t| == |s| - 1 && Distinct(t)
      && (forall j :: j < k ==> At(t, j) == At(s, j))
      && (forall j :: j >= k ==> At(t, j) == At(s, j + 1))
  {
  }

  /** `insert_link`: put `link` between two neighbours, either of which may be absent. */
  method InsertBetween<T>(prev: Link?<T>, next: Link?<T>, link: Link<T>, ghost s: seq<Link<T>>, ghost i: nat)
    requires IsList(At(s, 0), s) && link !in s && i <= |s|
    requires prev == At(s, i - 1) && next == At(s, i)
    modifies s, link
    ensures IsList(if i == 0 then link else s[0], InsertedAt(s, i, link))
  {
    InsertedFacts(s, i, link);
    hide InsertedAt;
    link.prev := prev;
    link.next := next;
    if next != null {
      next.prev := link;
    }
    if prev != null {
      prev.next := link;
    }
  }

  /** Where sorted insertion puts a new element. */
  ghost function InsertIndex<L, T>(s: seq<L>, key: L -> T, cmp: (T, T) -> int, x: L): (i: nat)
    ensures i <= |s|
    ensures Insert(s, key, cmp, x) == InsertedAt(s, i, x)
  {
    if s == [] || cmp(key(s[0]), key(x)) >= 0 then 0
    else
      var i := 1 + InsertIndex(s[1..], key, cmp, x);
      assert InsertedAt(s, i, x) == [s[0]] + InsertedAt(s[1..], i - 1, x);
      i
  }

  lemma {:induction false} InsertIndexIsFirst<L, T>(s: seq<L>, key: L -> T, cmp: (T, T) -> int, x: L, i: nat)
    requires i <= |s|
    requires forall j :: 0 <= j < i ==> cmp(key(s[j]), key(x)) < 0
    requires i < |s| ==> cmp(key(s[i]), key(x)) >= 0
    ensures InsertIndex(s, key, cmp, x) == i
  {
    if i > 0 {
      InsertIndexIsFirst(s[1..], key, cmp, x, i - 1);
    }
  }

  /** `list_insert_link_sorted`, and `list_insert_sorted` on a new link: the link
      goes before the first one that does not compare smaller. */
  method InsertLinkSorted<T>(head: Link?<T>, cmp: (T, T) -> int, link: Link<T>, ghost s: seq<Link<T>>)
      returns (r: Link<T>)
    requires IsList(head, s) && link !in s
    modifies s, link
    ensures IsList(r, Insert(s, Data, cmp, link))
  {
    ghost var at: nat := 0;
    if head == null || cmp(head.data, link.data) >= 0 {
      InsertIndexIsFirst(s, Data, cmp, link, 0);
      InsertBetween(null, head, link, s, 0);
      return link;
    }
    var l: Link<T> := head;
    while l.next != null && !(cmp(l.next.data, link.data) >= 0)
      invariant at < |s| && l == s[at]
      invariant forall j :: 0 <= j <= at ==> cmp(s[j].data, link.data) < 0
      decreases |s| - at
    {
      l := l.next;
      at := at + 1;
    }
    InsertIndexIsFirst(s, Data, cmp, link, at + 1);
    InsertBetween(l, l.next, link, s, at + 1);
    r := head;
  }

  /** `list_insert_link`: put `link` right after `prev`. */
  method InsertLinkAfter<T>(prev: Link<T>, link: Link<T>, ghost s: seq<Link<T>>, ghost i: nat)
    requires IsList(At(s, 0), s) && link !in s && i < |s| && prev == s[i]
    modifies s, link
    ensures IsList(s[0], InsertedAt(s, i + 1, link))
  {
    InsertBetween(prev, prev.next, link, s, i + 1);
  }

  /** `list_unlink_link`; `list_remove_link` does the same before freeing the
      link. A null link leaves the list alone. */
  method UnlinkLink<T>(head: Link?<T>, link: Link?<T>, ghost s: seq<Link<T>>, ghost k: nat) returns (r: Link?<T>)
    requires IsList(head, s) && (link != null ==> k < |s| && link == s[k])
    modifies s
    ensures link == null ==> r == head && IsList(r, s)
    ensures link != null ==> IsList(r, RemovedAt(s, k)) && link.prev == null && link.next == null
  {
    r := head;
    if r == null {
      return null;
    }
    if link == null {
      return r;
    }
    if link == r {
      r := link.next;
    }
    var prev, next := link.prev, link.next;
    if prev != null {
      prev.next := next;
    }
    if next != null {
      next.prev := prev;
    }
    link.prev := null;
    link.next := null;
    RemovedFacts(s, k);
    ghost var t := RemovedAt(s, k);
    hide RemovedAt;
    forall j | 0 <= j < |t|
      ensures t[j].next == At(t, j + 1) && t[j].prev == At(t, j - 1)
    {
      ghost var i := if j < k then j else j + 1;
      assert t[j] == At(t, j) == At(s, i) == s[i] && s[i] != s[k];
      assert s[i] == prev <==> i == k - 1;
      assert s[i] == next <==> i == k + 1;
    }
  }

  /** The links a foreach-with-removal keeps. */
  ghost function Kept<T>(s: seq<Link<T>>, f: T -> bool): seq<Link<T>> {
    if s == [] then []
    else if f(s[0].data) then Kept(s[1..], f)
    else [s[0]] + Kept(s[1..], f)
  }

  lemma {:induction false} KeptConcat<T>(a: seq<Link<T>>, b: seq<Link<T>>, f: T -> bool)
    ensures Kept(a + b, f) == Kept(a, f) + Kept(b, f)
  {
    if a == [] {
      assert a + b == b;
    } else {
      assert (a + b)[1..] == a[1..] + b;
      KeptConcat(a[1..], b, f);
    }
  }

  /** Between two rounds: `done` is what survived, `s[i..]` is still to visit. */
  ghost predicate Visiting<T>(head: Link?<T>, link: Link?<T>, s: seq<Link<T>>, i: nat, done: seq<Link<T>>, f: T -> bool)
    reads s, done
  {
    && i <= |s| && link == At(s, i) && done == Kept(s[..i], f)
    && (forall l :: l in done ==> l in s)
    && IsList(head, done + s[i..])
  }

  lemma VisitNext<T>(s: seq<Link<T>>, i: nat, done: seq<Link<T>>, f: T -> bool)
    requires i < |s| && done == Kept(s[..i], f)
    ensures Kept(s[..i + 1], f) == if f(s[i].data) then done else done + [s[i]]
    ensures RemovedAt(done + s[i..], |done|) == done + s[i + 1..]
    ensures (done + [s[i]]) + s[i + 1..] == done + s[i..]
    ensures (done + s[i..])[|done|] == s[i]
    ensures forall j :: 0 <= j < |done + s[i..]| && (forall l :: l in done ==> l in s) ==> (done + s[i..])[j] in s
  {
    assert s[..i + 1] == s[..i] + [s[i]];
    KeptConcat(s[..i], [s[i]], f);
    assert [s[i]][1..] == [];
  }

  method ForeachRemoveStep<T>(head: Link?<T>, link: Link<T>, f: T -> bool, ghost s: seq<Link<T>>, ghost i: nat,
      ghost done: seq<Link<T>>)
    returns (r: Link?<T>, next: Link?<T>, ghost done': seq<Link<T>>)
    requires Visiting(head, link, s, i, done, f)
    modifies s
    ensures Visiting(r, next, s, i + 1, done', f)
  {
    r := head;
    next := link.next;
    VisitNext(s, i, done, f);
    assert (done + s[i..])[|done|] == link;
    assert next == At(done + s[i..], |done| + 1) == At(s, i + 1);
    if f(link.data) {
      r := UnlinkLink(r, link, done + s[i..], |done|);
      done' := done;
    } else {
      done' := done + [link];
    }
  }

  /** `list_foreach_remove`: visits every link of the original list once and
      removes exactly those the callback picks. */
  method ForeachRemove<T>(head: Link?<T>, f: T -> bool, ghost s: seq<Link<T>>) returns (r: Link?<T>)
    requires IsList(head, s)
    modifies s
    ensures IsList(r, Kept(s, f))
  {
    r := head;
    var link := head;
    ghost var i: nat, done := 0, [];
    VisitStarts(head, s, f);
    hide *;
    while link != null
      invariant Visiting(r, link, s, i, done, f)
      decreases |s| - i
    {
      VisitBound(r, link, s, i, done, f);
      r, link, done := ForeachRemoveStep(r, link, f, s, i, done);
      i := i + 1;
    }
    VisitDone(r, s, i, done, f);
  }

  lemma VisitStarts<T>(head: Link?<T>, s: seq<Link<T>>, f: T -> bool)
    requires IsList(head, s)
    ensures Visiting(head, head, s, 0, [], f)
  {
    assert [] + s[0..] == s;
  }

  lemma VisitBound<T>(head: Link?<T>, link: Link<T>, s: seq<Link<T>>, i: nat, done: seq<Link<T>>, f: T -> bool)
    requires Visiting(head, link, s, i, done, f)
    ensures i < |s|
  {
  }

  lemma VisitDone<T>(head: Link?<T>, s: seq<Link<T>>, i: nat, done: seq<Link<T>>, f: T -> bool)
    requires Visiting(head, null, s, i, done, f)
    ensures IsList(head, Kept(s, f))
  {
    assert s[..i] == s && done + s[i..] == done;
  }

  /** `list_verify_integrity` answers exactly whether a `next` chain is a
      well-formed list whose data fields are all set. */
  method VerifyIntegrity<T>(head: Link?<T>, isNull: T -> bool, ghost s: seq<Link<T>>) returns (ok: bool)
    requires head == At(s, 0) && Chain(s, 0, |s|) && Distinct(s)
    ensures ok <==> IsList(head, s) && forall l :: l in s ==> !isNull(l.data)
  {
    var curr := head;
    var prev: Link?<T> := null;
    ghost var i: nat := 0;
    while curr != null
      invariant i <= |s| && curr == At(s, i) && prev == At(s, i - 1)
      invariant forall j :: 0 <= j < i ==> s[j].prev == At(s, j - 1) && !isNull(s[j].data)
      decreases |s| - i
    {
      if isNull(curr.data) || curr.prev != prev || (prev != null && prev.next != curr) {
        assert s[i] in s;
        return false;
      }
      prev := curr;
      curr := curr.next;
      i := i + 1;
    }
    ok := true;
  }
}
