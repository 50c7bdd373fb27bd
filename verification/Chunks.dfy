/** The chunk list of a download as a value, and what `consolidate_chunks` of
    gift-ares/lib/as_download.c does to it.

    A chunk covers `size` bytes from `start`, of which the first `received` are
    on disk. `conn` is the source fetching it, if any. */
module Chunks {
  import opened Wrappers

  /** Names a source, and with it the one connection to that source. */
  type Source = nat

  datatype Chunk = Chunk(start: nat, size: nat, received: nat, conn: Option<Source>) {
    function End(): nat { start + size }

    predicate Idle() { conn.None? }

    predicate Complete() { received == size }

    /** Idle with some but not all of its bytes. */
    predicate HalfDone() { Idle() && 0 < received < size }

    predicate Holds(x: nat) { start <= x < start + received }
  }

  /** The chunks cover `[from, to)` without hole or overlap, and none has more
      than its size. */
  ghost predicate Tiles(cs: seq<Chunk>, from: nat, to: nat) {
    if cs == [] then from == to
    else cs[0].start == from && cs[0].received <= cs[0].size && Tiles(cs[1..], cs[0].End(), to)
  }

  /** Where a run of chunks that starts at `from` ends. */
  ghost function Span(cs: seq<Chunk>, from: nat): nat {
    if cs == [] then from else Span(cs[1..], from + cs[0].size)
  }

  /** Bytes received, over all chunks. */
  function Got(cs: seq<Chunk>): nat {
    if cs == [] then 0 else cs[0].received + Got(cs[1..])
  }

  /** Byte `x` of the file has been received. */
  ghost predicate Has(cs: seq<Chunk>, x: nat) {
    cs != [] && (cs[0].Holds(x) || Has(cs[1..], x))
  }

  /** Byte `x` lies in a complete chunk. */
  ghost predicate Safe(cs: seq<Chunk>, x: nat) {
    cs != [] && ((cs[0].Complete() && cs[0].Holds(x)) || Safe(cs[1..], x))
  }

  /** Every byte of a complete chunk still is one. */
  ghost predicate SafeStays(a: seq<Chunk>, b: seq<Chunk>) {
    forall x: nat :: Safe(a, x) ==> Safe(b, x)
  }

  /** The chunks that are being fetched, in order. */
  ghost function Attached(cs: seq<Chunk>): seq<Chunk> {
    if cs == [] then [] else (if cs[0].Idle() then [] else [cs[0]]) + Attached(cs[1..])
  }

  // -------------------------------------------------------------- concatenation

  lemma {:induction false} TilesConcat(a: seq<Chunk>, b: seq<Chunk>, from: nat, to: nat)
    ensures Tiles(a + b, from, to) <==> Tiles(a, from, Span(a, from)) && Tiles(b, Span(a, from), to)
  {
    if a == [] {
      assert a + b == b;
    } else {
      assert (a + b)[1..] == a[1..] + b;
      TilesConcat(a[1..], b, from + a[0].size, to);
    }
  }

  lemma {:induction false} TilesSpan(cs: seq<Chunk>, from: nat, to: nat)
    requires Tiles(cs, from, to)
    ensures Span(cs, from) == to && from <= to
  {
    if cs != [] {
      TilesSpan(cs[1..], cs[0].End(), to);
    }
  }

  lemma {:induction false} GotConcat(a: seq<Chunk>, b: seq<Chunk>)
    ensures Got(a + b) == Got(a) + Got(b)
  {
    if a == [] {
      assert a + b == b;
    } else {
      assert (a + b)[1..] == a[1..] + b;
      GotConcat(a[1..], b);
    }
  }

  lemma {:induction false} HasConcat(a: seq<Chunk>, b: seq<Chunk>, x: nat)
    ensures Has(a + b, x) <==> Has(a, x) || Has(b, x)
  {
    if a == [] {
      assert a + b == b;
    } else {
      assert (a + b)[1..] == a[1..] + b;
      HasConcat(a[1..], b, x);
    }
  }

  lemma {:induction false} SafeConcat(a: seq<Chunk>, b: seq<Chunk>, x: nat)
    ensures Safe(a + b, x) <==> Safe(a, x) || Safe(b, x)
  {
    if a == [] {
      assert a + b == b;
    } else {
      assert (a + b)[1..] == a[1..] + b;
      SafeConcat(a[1..], b, x);
    }
  }

  lemma SafeOfOne(c: Chunk, x: nat)
    ensures Safe([c], x) <==> c.Complete() && c.Holds(x)
  {
    assert [c][1..] == [];
  }

  /** Replacing the middle of a list. */
  lemma SafeMiddle(pre: seq<Chunk>, a: seq<Chunk>, b: seq<Chunk>, post: seq<Chunk>)
    requires SafeStays(a, b)
    ensures SafeStays(pre + a + post, pre + b + post)
  {
    forall x: nat
      ensures Safe(pre + a + post, x) ==> Safe(pre + b + post, x)
    {
      SafeConcat(pre + a, post, x);
      SafeConcat(pre, a, x);
      SafeConcat(pre + b, post, x);
      SafeConcat(pre, b, x);
    }
  }

  lemma {:induction false} AttachedConcat(a: seq<Chunk>, b: seq<Chunk>)
    ensures Attached(a + b) == Attached(a) + Attached(b)
  {
    if a == [] {
      assert a + b == b;
    } else {
      assert (a + b)[1..] == a[1..] + b;
      AttachedConcat(a[1..], b);
    }
  }

  /** `a` and `b` are interchangeable in the middle of a chunk list: same span,
      same bytes received, same chunks being fetched. */
  ghost predicate Same(a: seq<Chunk>, b: seq<Chunk>, from: nat, to: nat) {
    && Tiles(a, from, to) && Tiles(b, from, to)
    && Got(a) == Got(b)
    && (forall x: nat :: Has(a, x) <==> Has(b, x))
    && Attached(a) == Attached(b)
  }

  lemma SameAppend(a: seq<Chunk>, b: seq<Chunk>, from: nat, mid: nat, c: seq<Chunk>, d: seq<Chunk>, to: nat)
    requires Same(a, b, from, mid) && Same(c, d, mid, to)
    ensures Same(a + c, b + d, from, to)
  {
    TilesSpan(a, from, mid);
    TilesSpan(b, from, mid);
    TilesConcat(a, c, from, to);
    TilesConcat(b, d, from, to);
    GotConcat(a, c);
    GotConcat(b, d);
    AttachedConcat(a, c);
    AttachedConcat(b, d);
    forall x: nat
      ensures Has(a + c, x) <==> Has(b + d, x)
    {
      HasConcat(a, c, x);
      HasConcat(b, d, x);
    }
  }

  // -------------------------------------------------------------- consolidation

  /** Both complete or both empty, and neither is being fetched. */
  predicate Mergeable(l: Chunk, c: Chunk) {
    && l.Idle() && c.Idle()
    && ((l.Complete() && c.Complete()) || (l.received == 0 && c.received == 0))
  }

  function Merged(l: Chunk, c: Chunk): Chunk {
    l.(size := l.size + c.size, received := l.received + c.received)
  }

  function FirstHalf(c: Chunk): Chunk { c.(size := c.received) }

  function SecondHalf(c: Chunk): Chunk
    requires c.received <= c.size
  {
    Chunk(c.start + c.received, c.size - c.received, 0, None)
  }

  /** Add `c` after the chunks already swept, merging it if possible. */
  function Push(done: seq<Chunk>, c: Chunk): seq<Chunk> {
    if done != [] && Mergeable(done[|done| - 1], c)
    then done[..|done| - 1] + [Merged(done[|done| - 1], c)]
    else done + [c]
  }

  function Step(done: seq<Chunk>, c: Chunk): seq<Chunk> {
    if c.HalfDone() then Push(done + [FirstHalf(c)], SecondHalf(c)) else Push(done, c)
  }

  function Sweep(done: seq<Chunk>, rest: seq<Chunk>): seq<Chunk>
    decreases |rest|
  {
    if rest == [] then done else Sweep(Step(done, rest[0]), rest[1..])
  }

  /** One pass of `consolidate_chunks`. */
  function Consolidate(cs: seq<Chunk>): seq<Chunk> { Sweep([], cs) }

  ghost predicate NoHalves(cs: seq<Chunk>) {
    forall i :: 0 <= i < |cs| ==> cs[i].conn.Some? || cs[i].received == 0 || cs[i].received >= cs[i].size
  }

  /** Two neighbours, neither being fetched, are both complete or both empty. */
  ghost predicate MergeableAt(cs: seq<Chunk>, i: nat) {
    && i + 1 < |cs| && cs[i].conn.None? && cs[i + 1].conn.None?
    && ((cs[i].received == cs[i].size && cs[i + 1].received == cs[i + 1].size)
        || cs[i].received == cs[i + 1].received == 0)
  }

  /** No idle chunk is half received and no two neighbours could be merged. */
  ghost predicate Normal(cs: seq<Chunk>) {
    NoHalves(cs) && forall i: nat :: !MergeableAt(cs, i)
  }

  lemma OfOne(c: Chunk, from: nat, to: nat)
    ensures Tiles([c], from, to) <==> c.start == from && c.received <= c.size && c.End() == to
    ensures Got([c]) == c.received
    ensures forall x: nat :: Has([c], x) <==> c.Holds(x)
    ensures Attached([c]) == if c.Idle() then [] else [c]
  {
    assert [c][1..] == [];
    assert Tiles([], c.End(), to) <==> c.End() == to;
    assert Got([]) == 0 && Attached([]) == [] && forall x: nat :: !Has([], x);
  }

  lemma OfTwo(c: Chunk, d: Chunk, from: nat, to: nat)
    ensures Tiles([c, d], from, to) <==>
            c.start == from && c.received <= c.size && c.End() == d.start && d.received <= d.size && d.End() == to
    ensures Got([c, d]) == c.received + d.received
    ensures forall x: nat :: Has([c, d], x) <==> c.Holds(x) || d.Holds(x)
    ensures Attached([c, d]) == (if c.Idle() then [] else [c]) + (if d.Idle() then [] else [d])
  {
    assert [c, d][1..] == [d];
    OfOne(d, c.End(), to);
  }

  lemma PushSame(done: seq<Chunk>, c: Chunk, from: nat, mid: nat)
    requires Tiles(done, from, mid) && c.start == mid && c.received <= c.size
    ensures Same(Push(done, c), done + [c], from, c.End())
  {
    if done != [] && Mergeable(done[|done| - 1], c) {
      var l := done[|done| - 1];
      var init := done[..|done| - 1];
      assert done == init + [l];
      var at := Span(init, from);
      TilesConcat(init, [l], from, mid);
      OfOne(l, at, mid);
      OfOne(Merged(l, c), at, c.End());
      OfTwo(l, c, at, c.End());
      assert Tiles([l], at, mid);
      assert Same([Merged(l, c)], [l, c], at, c.End());
      SameAppend(init, init, from, at, [Merged(l, c)], [l, c], c.End());
      assert init + [l, c] == done + [c];
    } else {
      OfOne(c, mid, c.End());
      SameAppend(done, done, from, mid, [c], [c], c.End());
    }
  }

  lemma StepSame(done: seq<Chunk>, c: Chunk, from: nat, mid: nat)
    requires Tiles(done, from, mid) && c.start == mid && c.received <= c.size
    ensures Same(Step(done, c), done + [c], from, c.End())
  {
    if c.HalfDone() {
      var h1, h2 := FirstHalf(c), SecondHalf(c);
      OfOne(c, mid, c.End());
      OfOne(h1, mid, h1.End());
      OfTwo(h1, h2, mid, c.End());
      TilesSpan(done, from, mid);
      TilesConcat(done, [h1], from, h1.End());
      PushSame(done + [h1], h2, from, h1.End());
      assert Same([h1, h2], [c], mid, c.End());
      SameAppend(done, done, from, mid, [h1, h2], [c], c.End());
      assert done + [h1] + [h2] == done + [h1, h2];
    } else {
      PushSame(done, c, from, mid);
    }
  }

  lemma SameTrans(a: seq<Chunk>, b: seq<Chunk>, c: seq<Chunk>, from: nat, to: nat)
    requires Same(a, b, from, to) && Same(b, c, from, to)
    ensures Same(a, c, from, to)
  {
  }

  lemma {:induction false} SweepSame(done: seq<Chunk>, rest: seq<Chunk>, from: nat, mid: nat, to: nat)
    requires Tiles(done, from, mid) && Tiles(rest, mid, to)
    ensures Same(Sweep(done, rest), done + rest, from, to)
    decreases |rest|
  {
    if rest == [] {
      assert done + rest == done;
    } else {
      var c := rest[0];
      StepSame(done, c, from, mid);
      SweepSame(Step(done, c), rest[1..], from, c.End(), to);
      SameAppend(Step(done, c), done + [c], from, c.End(), rest[1..], rest[1..], to);
      assert done + [c] + rest[1..] == done + rest;
      SameTrans(Sweep(done, rest), Step(done, c) + rest[1..], done + rest, from, to);
    }
  }

  /** Consolidation changes neither what the list covers, nor which bytes are
      received, nor any chunk that is being fetched. */
  lemma ConsolidateSame(cs: seq<Chunk>, size: nat)
    requires Tiles(cs, 0, size)
    ensures Same(Consolidate(cs), cs, 0, size)
  {
    SweepSame([], cs, 0, 0, size);
    assert [] + cs == cs;
  }

  lemma PushSafe(done: seq<Chunk>, c: Chunk)
    requires forall d :: d in done + [c] ==> d.received <= d.size
    requires done != [] ==> done[|done| - 1].End() == c.start
    ensures SafeStays(done + [c], Push(done, c))
  {
    if done != [] && Mergeable(done[|done| - 1], c) {
      var init, l := done[..|done| - 1], done[|done| - 1];
      assert done + [c] == init + [l, c] + [] && Push(done, c) == init + [Merged(l, c)] + [];
      forall x: nat
        ensures Safe([l, c], x) ==> Safe([Merged(l, c)], x)
      {
        assert [l, c] == [l] + [c];
        SafeConcat([l], [c], x);
        SafeOfOne(l, x);
        SafeOfOne(c, x);
        SafeOfOne(Merged(l, c), x);
      }
      SafeMiddle(init, [l, c], [Merged(l, c)], []);
    }
  }

  /** A half received chunk is not complete, so splitting it takes nothing away. */
  lemma StepSafe(done: seq<Chunk>, c: Chunk)
    requires forall d :: d in done + [c] ==> d.received <= d.size
    requires done != [] ==> done[|done| - 1].End() == c.start
    ensures SafeStays(done + [c], Step(done, c))
  {
    if c.HalfDone() {
      var h, e := FirstHalf(c), SecondHalf(c);
      PushSafe(done + [h], e);
      forall x: nat
        ensures Safe(done + [c], x) ==> Safe(done + [h] + [e], x)
      {
        SafeConcat(done, [c], x);
        SafeOfOne(c, x);
        SafeConcat(done + [h], [e], x);
        SafeConcat(done, [h], x);
      }
    } else {
      PushSafe(done, c);
    }
  }

  lemma {:induction false} TilesLast(cs: seq<Chunk>, from: nat, to: nat)
    requires Tiles(cs, from, to) && cs != []
    ensures cs[|cs| - 1].End() == to
  {
    if |cs| > 1 {
      TilesLast(cs[1..], cs[0].End(), to);
    }
  }

  lemma {:induction false} SweepSafe(done: seq<Chunk>, rest: seq<Chunk>, from: nat, mid: nat, to: nat)
    requires Tiles(done, from, mid) && Tiles(rest, mid, to)
    ensures SafeStays(done + rest, Sweep(done, rest))
    decreases |rest|
  {
    if rest == [] {
      assert done + rest == done;
    } else {
      var c := rest[0];
      StepSame(done, c, from, mid);
      if done != [] {
        TilesLast(done, from, mid);
      }
      forall d | d in done + [c]
        ensures d.received <= d.size
      {
        if d in done {
          TilesBounds(done, from, mid, d);
        }
      }
      hide Step, Same, Tiles;
      StepSafe(done, c);
      SafeMiddle([], done + [c], Step(done, c), rest[1..]);
      assert [] + (done + [c]) + rest[1..] == done + rest &&
          [] + Step(done, c) + rest[1..] == Step(done, c) + rest[1..];
      SweepSafe(Step(done, c), rest[1..], from, c.End(), to);
    }
  }

  /** Consolidation leaves the bytes of complete chunks in complete chunks. */
  lemma ConsolidateSafe(cs: seq<Chunk>, size: nat)
    requires Tiles(cs, 0, size)
    ensures SafeStays(cs, Consolidate(cs))
  {
    SweepSafe([], cs, 0, 0, size);
    assert [] + cs == cs;
  }

  lemma StepNoHalves(done: seq<Chunk>, c: Chunk)
    requires NoHalves(done) && c.received <= c.size
    ensures NoHalves(Step(done, c))
  {
  }

  lemma {:induction false} SweepNoHalves(done: seq<Chunk>, rest: seq<Chunk>)
    requires NoHalves(done) && forall c :: c in rest ==> c.received <= c.size
    ensures NoHalves(Sweep(done, rest))
    decreases |rest|
  {
    if rest != [] {
      StepNoHalves(done, rest[0]);
      SweepNoHalves(Step(done, rest[0]), rest[1..]);
    }
  }

  lemma {:induction false} TilesBounds(cs: seq<Chunk>, from: nat, to: nat, c: Chunk)
    requires Tiles(cs, from, to) && c in cs
    ensures from <= c.start && c.End() <= to && c.received <= c.size
  {
    TilesSpan(cs[1..], cs[0].End(), to);
    if c != cs[0] {
      TilesBounds(cs[1..], cs[0].End(), to, c);
    }
  }

  /** Every idle chunk comes out complete or empty. */
  lemma ConsolidateSplitsHalves(cs: seq<Chunk>, size: nat)
    requires Tiles(cs, 0, size)
    ensures NoHalves(Consolidate(cs))
  {
    forall c | c in cs
      ensures c.received <= c.size
    {
      TilesBounds(cs, 0, size, c);
    }
    SweepNoHalves([], cs);
  }

  lemma PushNormal(done: seq<Chunk>, c: Chunk)
    requires Normal(done) && !c.HalfDone()
    ensures Normal(Push(done, c))
  {
    var p := Push(done, c);
    forall i: nat
      ensures !MergeableAt(p, i)
    {
      assert !MergeableAt(done, i);
    }
  }

  lemma {:induction false} SweepNormal(done: seq<Chunk>, rest: seq<Chunk>)
    requires Normal(done) && NoHalves(rest)
    ensures Normal(Sweep(done, rest))
    decreases |rest|
  {
    if rest != [] {
      PushNormal(done, rest[0]);
      SweepNormal(Step(done, rest[0]), rest[1..]);
    }
  }

  /** One pass reaches maximal runs when no idle chunk is half received. */
  lemma OnePassNormalizes(cs: seq<Chunk>)
    requires NoHalves(cs)
    ensures Normal(Consolidate(cs))
  {
    SweepNormal([], cs);
  }

  lemma {:induction false} SweepOfNormal(done: seq<Chunk>, rest: seq<Chunk>)
    requires Normal(done + rest)
    ensures Sweep(done, rest) == done + rest
    decreases |rest|
  {
    if rest == [] {
      assert done + rest == done;
    } else {
      var all := done + rest;
      assert all[|done|] == rest[0] && !all[|done|].HalfDone();
      if done != [] {
        assert !MergeableAt(all, |done| - 1);
      }
      assert done + [rest[0]] + rest[1..] == all;
      SweepOfNormal(done + [rest[0]], rest[1..]);
    }
  }

  /** A normal list is a fixed point. */
  lemma NormalIsFixedPoint(cs: seq<Chunk>)
    requires Normal(cs)
    ensures Consolidate(cs) == cs
  {
    assert [] + cs == cs;
    SweepOfNormal([], cs);
  }

  /** Two passes always reach a fixed point. */
  lemma TwoPassesSuffice(cs: seq<Chunk>, size: nat)
    requires Tiles(cs, 0, size)
    ensures var twice := Consolidate(Consolidate(cs));
      Normal(twice) && Consolidate(twice) == twice
  {
    ConsolidateSplitsHalves(cs, size);
    OnePassNormalizes(Consolidate(cs));
    NormalIsFixedPoint(Consolidate(Consolidate(cs)));
  }

  // ------------------------------------ when one pass is not enough

  ghost predicate Positive(cs: seq<Chunk>) {
    forall i :: 0 <= i < |cs| ==> cs[i].size > 0 && cs[i].received <= cs[i].size
  }

  /** A half received idle chunk right after a complete idle one. */
  ghost predicate HalfAfterComplete(cs: seq<Chunk>, i: nat) {
    0 < i < |cs| && cs[i].HalfDone() && cs[i - 1].Idle() && cs[i - 1].Complete()
  }

  lemma {:induction false} StuckPairStays(done: seq<Chunk>, rest: seq<Chunk>, i: nat)
    requires MergeableAt(done, i) && i + 2 < |done|
    ensures MergeableAt(Sweep(done, rest), i)
    decreases |rest|
  {
    if rest != [] {
      StuckPairStays(Step(done, rest[0]), rest[1..], i);
    }
  }

  /** `done` is the sweep of chunks of which `prev` was the last. */
  ghost predicate Follows(done: seq<Chunk>, prev: Chunk) {
    && done != []
    && (done[|done| - 1].Idle() && done[|done| - 1].Complete() <==> prev.Idle() && prev.Complete())
    && done[|done| - 1].size > 0
  }

  lemma PushFollows(done: seq<Chunk>, c: Chunk, prev: Chunk)
    requires c.size > 0 && (done == [] || done[|done| - 1].size > 0)
    requires c.Idle() && c.Complete() <==> prev.Idle() && prev.Complete()
    ensures Follows(Push(done, c), prev)
  {
    hide Mergeable;
    var p := Push(done, c);
    if done != [] && Mergeable(done[|done| - 1], c) {
      var l := done[|done| - 1];
      assert p[|p| - 1] == Merged(l, c);
      MergedFollows(l, c);
    } else {
      assert p[|p| - 1] == c;
    }
  }

  lemma MergedFollows(l: Chunk, c: Chunk)
    requires Mergeable(l, c) && l.size > 0 && c.size > 0
    ensures Merged(l, c).Idle() && c.Idle() && (Merged(l, c).Complete() <==> c.Complete())
  {
  }

  lemma StepFollows(done: seq<Chunk>, c: Chunk)
    requires c.size > 0 && c.received <= c.size
    requires done == [] || done[|done| - 1].size > 0
    ensures Follows(Step(done, c), c)
  {
    hide Push, Follows;
    if c.HalfDone() {
      PushFollows(done + [FirstHalf(c)], SecondHalf(c), c);
    } else {
      PushFollows(done, c, c);
    }
  }

  lemma StepNormalIff(done: seq<Chunk>, c: Chunk)
    requires Normal(done) && c.size > 0 && c.received <= c.size
    ensures Normal(Step(done, c)) <==>
            !(c.HalfDone() && done != [] && done[|done| - 1].Idle() && done[|done| - 1].Complete())
    ensures !Normal(Step(done, c)) ==>
        |done| > 0 && MergeableAt(Step(done, c), |done| - 1) && |done| + 1 < |Step(done, c)|
  {
    if c.HalfDone() {
      var p := Step(done, c);
      assert p == done + [FirstHalf(c), SecondHalf(c)];
      forall i: nat | i != |done| - 1
        ensures !MergeableAt(p, i)
      {
        assert !MergeableAt(done, i);
      }
      if done != [] {
        assert MergeableAt(p, |done| - 1) <==> done[|done| - 1].Idle() && done[|done| - 1].Complete();
      }
    } else {
      PushNormal(done, c);
    }
  }

  lemma {:induction false} SweepNormalIff(done: seq<Chunk>, cs: seq<Chunk>, k: nat)
    requires k <= |cs| && Positive(cs) && Normal(done)
    requires if k == 0 then done == [] else Follows(done, cs[k - 1])
    ensures Normal(Sweep(done, cs[k..])) <==> forall i: nat :: k <= i ==> !HalfAfterComplete(cs, i)
    decreases |cs| - k
  {
    if k == |cs| {
    } else {
      var c := cs[k];
      assert cs[k..][0] == c && cs[k..][1..] == cs[k + 1..];
      StepNormalIff(done, c);
      StepFollows(done, c);
      if HalfAfterComplete(cs, k) {
        StuckPairStays(Step(done, c), cs[k + 1..], |done| - 1);
      } else {
        SweepNormalIff(Step(done, c), cs, k + 1);
      }
    }
  }

  /** Exactly when one pass leaves maximal runs: the completed half of a split
      chunk is never merged with a complete left neighbour in the same pass. */
  lemma OnePassNormalIff(cs: seq<Chunk>)
    requires Positive(cs)
    ensures Normal(Consolidate(cs)) <==> forall i: nat :: !HalfAfterComplete(cs, i)
  {
    assert cs[0..] == cs;
    SweepNormalIff([], cs, 0);
  }

  /** A list of three bytes that one pass does not finish. */
  lemma OnePassNotEnough()
    ensures var cs := [Chunk(0, 1, 1, None), Chunk(1, 2, 1, None)];
      && Consolidate(cs) == [Chunk(0, 1, 1, None), Chunk(1, 1, 1, None), Chunk(2, 1, 0, None)]
      && !Normal(Consolidate(cs))
      && Consolidate(Consolidate(cs)) == [Chunk(0, 2, 2, None), Chunk(2, 1, 0, None)]
  {
    var a, b := Chunk(0, 1, 1, None), Chunk(1, 2, 1, None);
    var b1, b2 := Chunk(1, 1, 1, None), Chunk(2, 1, 0, None);
    var ab := Chunk(0, 2, 2, None);
    assert [a, b][1..] == [b] && [b][1..] == [];
    assert Step([], a) == [a] && Step([a], b) == [a, b1, b2];
    assert Sweep([], [a, b]) == Sweep([a], [b]) == Sweep([a, b1, b2], []);
    assert MergeableAt([a, b1, b2], 0);
    assert [a, b1, b2][1..] == [b1, b2] && [b1, b2][1..] == [b2] && [b2][1..] == [];
    assert Step([a], b1) == [ab] && Step([ab], b2) == [ab, b2];
    assert Sweep([], [a, b1, b2]) == Sweep([a], [b1, b2]) == Sweep([ab], [b2]) == Sweep([ab, b2], []);
  }

  // -------------------------------------------------------- the completion test

  ghost predicate AllComplete(cs: seq<Chunk>) {
    forall i :: 0 <= i < |cs| ==> cs[i].Idle() && cs[i].Complete()
  }

  lemma {:induction false} SweepAllComplete(l: Chunk, rest: seq<Chunk>, to: nat)
    requires l.Idle() && l.Complete() && AllComplete(rest) && Tiles(rest, l.End(), to)
    ensures l.start <= to && Sweep([l], rest) == [Chunk(l.start, to - l.start, to - l.start, None)]
    decreases |rest|
  {
    if rest == [] {
      assert l == Chunk(l.start, to - l.start, to - l.start, None);
    } else {
      var m := Merged(l, rest[0]);
      assert Step([l], rest[0]) == [m];
      assert m.End() == rest[0].End();
      SweepAllComplete(m, rest[1..], to);
    }
  }

  /** When everything has arrived one pass leaves a single complete chunk, so the
      test on the first chunk cannot miss the end of the download. */
  lemma CompletionNotMissed(cs: seq<Chunk>, size: nat)
    requires Tiles(cs, 0, size) && cs != [] && AllComplete(cs)
    ensures Consolidate(cs) == [Chunk(0, size, size, None)]
  {
    assert Step([], cs[0]) == [cs[0]];
    SweepAllComplete(cs[0], cs[1..], size);
  }

  lemma {:induction false} GotAtMost(cs: seq<Chunk>, from: nat, to: nat)
    requires Tiles(cs, from, to)
    ensures from + Got(cs) <= to
    ensures from + Got(cs) == to ==> forall c :: c in cs ==> c.Complete()
  {
    if cs != [] {
      GotAtMost(cs[1..], cs[0].End(), to);
      TilesSpan(cs[1..], cs[0].End(), to);
    }
  }
}
