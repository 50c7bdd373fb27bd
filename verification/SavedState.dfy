/** The state a download keeps at the end of its file
    (gift-ares/lib/as_download_state.c): which ranges are still missing. */
module SavedState {
  import opened Wrappers
  import opened Bytes
  import opened Chunks
  import opened Files
  import opened Packets

  // ------------------------------------------------------------ writing ranges

  ghost predicate Saveable(cs: seq<Chunk>) {
    forall c :: c in cs ==> c.End() < U32 && c.received <= c.size
  }

  lemma SaveableNext(cs: seq<Chunk>)
    requires cs != [] && Saveable(cs)
    ensures cs[0].End() < U32 && cs[0].received <= cs[0].size && Saveable(cs[1..])
  {
    assert cs[0] in cs;
  }

  lemma SaveableConcat(a: seq<Chunk>, b: seq<Chunk>)
    requires Saveable(a) && Saveable(b)
    ensures Saveable(a + b)
  {
  }

  /** The range of a chunk, with its last byte, unless it is complete. */
  function RangeOf(c: Chunk): seq<byte>
    requires c.End() < U32 && c.received <= c.size
  {
    if c.Complete() then [] else LE32(c.start) + LE32(c.End() - 1)
  }

  /** The incomplete chunks as inclusive byte ranges. */
  function RangeBytes(cs: seq<Chunk>): seq<byte>
    requires Saveable(cs)
  {
    if cs == [] then [] else SaveableNext(cs); RangeOf(cs[0]) + RangeBytes(cs[1..])
  }

  function ChunkBytes(cs: seq<Chunk>): seq<byte>
    requires Saveable(cs)
  {
    RangeBytes(cs) + LE32(0) + LE32(0)
  }

  lemma RangeBytesNext(cs: seq<Chunk>)
    requires cs != [] && Saveable(cs)
    ensures cs[0].End() < U32 && cs[0].received <= cs[0].size && Saveable(cs[1..])
    ensures RangeBytes(cs) == RangeOf(cs[0]) + RangeBytes(cs[1..])
  {
    SaveableNext(cs);
    hide Saveable, RangeOf;
  }

  lemma {:induction false} RangeBytesConcat(a: seq<Chunk>, b: seq<Chunk>)
    requires Saveable(a) && Saveable(b)
    ensures Saveable(a + b) && RangeBytes(a + b) == RangeBytes(a) + RangeBytes(b)
  {
    hide *;
    SaveableConcat(a, b);
    if a == [] {
      NoRanges();
      assert a + b == b;
    } else {
      RangeBytesNext(a);
      RangeBytesNext(a + b);
      assert (a + b)[1..] == a[1..] + b && (a + b)[0] == a[0];
      RangeBytesConcat(a[1..], b);
    }
  }

  lemma NoRanges()
    ensures Saveable([]) && RangeBytes([]) == []
  {
  }

  lemma RangeBytesOfOne(c: Chunk)
    requires c.End() < U32 && c.received <= c.size
    ensures Saveable([c]) && RangeBytes([c]) == RangeOf(c)
  {
    assert Saveable([c]);
    RangeBytesNext([c]);
    NoRanges();
    assert [c][1..] == [];
    hide *;
  }

  lemma SaveableTake(cs: seq<Chunk>, i: nat)
    requires Saveable(cs) && i < |cs|
    ensures Saveable(cs[..i]) && cs[i].End() < U32 && cs[i].received <= cs[i].size
  {
    assert cs[i] in cs;
  }

  lemma RangeBytesTake(cs: seq<Chunk>, i: nat)
    requires i < |cs| && Saveable(cs)
    ensures cs[i].End() < U32 && cs[i].received <= cs[i].size && Saveable(cs[..i]) && Saveable(cs[..i + 1])
    ensures RangeBytes(cs[..i + 1]) == RangeBytes(cs[..i]) + RangeOf(cs[i])
  {
    hide *;
    SaveableTake(cs, i);
    RangeBytesOfOne(cs[i]);
    assert cs[..i + 1] == cs[..i] + [cs[i]];
    RangeBytesConcat(cs[..i], [cs[i]]);
  }

  lemma OneMoreRange(cs: seq<Chunk>, i: nat)
    requires i < |cs| && Saveable(cs)
    ensures Saveable(cs[..i]) && Saveable(cs[..i + 1])
    ensures cs[i].Complete() ==> RangeBytes(cs[..i + 1]) == RangeBytes(cs[..i])
    ensures !cs[i].Complete() ==> 0 < cs[i].End() < U32
    ensures !cs[i].Complete() ==>
      RangeBytes(cs[..i + 1]) == RangeBytes(cs[..i]) + LE32(cs[i].start) + LE32(cs[i].End() - 1)
  {
    hide LE32, Saveable, RangeBytes;
    RangeBytesTake(cs, i);
  }

  /** `write_chunks`. */
  method WriteChunks(cs: seq<Chunk>, packet: Packet)
    requires packet.Valid() && Saveable(cs)
    modifies packet, packet.data
    ensures packet.Valid() && (packet.data == old(packet.data) || fresh(packet.data))
    ensures packet.Contents() == old(packet.Contents()) + ChunkBytes(cs) && packet.readPtr == old(packet.readPtr)
  {
    hide LE32, RangeBytes;
    ghost var before := packet.Contents();
    NoRanges();
    for i := 0 to |cs|
      invariant packet.Valid() && (packet.data == old(packet.data) || fresh(packet.data))
      invariant packet.readPtr == old(packet.readPtr)
      invariant Saveable(cs[..i]) && packet.Contents() == before + RangeBytes(cs[..i])
    {
      var c := cs[i];
      OneMoreRange(cs, i);
      if !c.Complete() {
        packet.PutLE32(c.start);
        packet.PutLE32(c.End() - 1);
      }
    }
    assert cs[..|cs|] == cs;
    packet.PutLE32(0);
    packet.PutLE32(0);
  }

  // ------------------------------------------------------------ reading ranges

  ghost predicate Contains(c: Chunk, x: nat) { c.start <= x < c.End() }

  /** Index of the first chunk that covers byte `x`, or the length of the list. */
  function Locate(cs: seq<Chunk>, x: nat): (i: nat)
    ensures i <= |cs|
    ensures i < |cs| ==> Contains(cs[i], x)
    ensures forall j :: 0 <= j < i ==> !Contains(cs[j], x)
  {
    if cs == [] || cs[0].start <= x < cs[0].End() then 0 else 1 + Locate(cs[1..], x)
  }

  /** A complete chunk with `n` bytes from `start` taken out of it. */
  function Pieces(c: Chunk, start: nat, n: nat): seq<Chunk>
    requires c.start <= start && start + n <= c.End()
  {
    (if start > c.start then [Chunk(c.start, start - c.start, start - c.start, c.conn)] else [])
    + [Chunk(start, n, 0, None)]
    + (if start + n < c.End() then [Chunk(start + n, c.End() - start - n, c.End() - start - n, None)] else [])
  }

  /** Cut a missing range out of the list. It has to lie in one complete chunk. */
  function CutOut(cs: seq<Chunk>, start: nat, n: nat): Option<seq<Chunk>> {
    var i := Locate(cs, start);
    if i == |cs| || !cs[i].Complete() || start + n > cs[i].End() then None
    else Some(cs[..i] + Pieces(cs[i], start, n) + cs[i + 1..])
  }

  /** What the saved ranges are cut out of: everything that was on disk, and
      nothing after it. The subtraction is one of 32 bit numbers. */
  function Uncut(size: nat, current: nat): seq<Chunk> {
    [Chunk(0, current, current, None), Chunk(current, (size - current) % U32, 0, None)]
  }

  /** The reading loop: cut out range after range up to the terminator. */
  function ReadRanges(cs: seq<Chunk>, bytes: seq<byte>, current: nat): Option<(seq<Chunk>, seq<byte>)>
    decreases |bytes|
  {
    if |bytes| < 8 then None
    else
      var start, end := FromLE32(bytes), FromLE32(bytes[4..]);
      if start == 0 && end == 0 then Some((cs, bytes[8..]))
      else if end <= start || start >= current || end >= current then None
      else
        match CutOut(cs, start, end - start + 1)
        case None => None
        case Some(cs') => ReadRanges(cs', bytes[8..], current)
  }

  method FindChunk(cs: seq<Chunk>, x: nat) returns (i: nat)
    ensures i == Locate(cs, x)
  {
    i := 0;
    while i < |cs| && !(cs[i].start <= x < cs[i].End())
      invariant i <= |cs| && forall j :: 0 <= j < i ==> !Contains(cs[j], x)
    {
      i := i + 1;
    }
  }

  /** `read_chunks`: on any trouble the chunk list is dropped. */
  method ReadChunks(packet: Packet, size: nat, current: nat) returns (ok: bool, cs: seq<Chunk>)
    requires packet.Valid()
    modifies packet`readPtr
    ensures packet.Valid()
    ensures match ReadRanges(Uncut(size, current), old(packet.Rest()), current)
      case Some((r, rest)) => ok && cs == r && packet.Rest() == rest
      case None => !ok && cs == []
  {
    hide FromLE32, CutOut;
    cs := Uncut(size, current);
    ghost var goal := ReadRanges(cs, packet.Rest(), current);
    var remaining := packet.Remaining();
    while remaining >= 8
      invariant packet.Valid() && remaining == |packet.Rest()|
      invariant ReadRanges(cs, packet.Rest(), current) == goal
      decreases remaining
    {
      ghost var rest := packet.Rest();
      var start := packet.GetLE32();
      var end := packet.GetLE32();
      assert packet.Rest() == rest[8..];
      if start == 0 && end == 0 {
        return true, cs;
      }
      if end <= start || start >= current || end >= current {
        break;
      }
      var next := CutRange(cs, start, end - start + 1);
      if next.None? {
        break;
      }
      cs := next.value;
      remaining := packet.Remaining();
    }
    return false, [];
  }

  /** The body of the reading loop for one range. */
  method CutRange(cs: seq<Chunk>, start: nat, n: nat) returns (r: Option<seq<Chunk>>)
    ensures r == CutOut(cs, start, n)
  {
    var i := FindChunk(cs, start);
    if i == |cs| || cs[i].received != cs[i].size || start + n > cs[i].End() {
      return None;
    }
    var prev, next := cs[i].(size := start - cs[i].start), Chunk(start + n, cs[i].End() - start - n, 0, None);
    prev, next := prev.(received := prev.size), next.(received := next.size);
    var mid := [Chunk(start, n, 0, None)];
    if prev.size > 0 {
      mid := [prev] + mid;
    }
    if next.size > 0 {
      mid := mid + [next];
    }
    assert mid == Pieces(cs[i], start, n);
    r := Some(cs[..i] + mid + cs[i + 1..]);
  }

  // ------------------------------------------ any accepted state is a partition

  /** Idle, and complete or empty. */
  ghost predicate Settled(cs: seq<Chunk>) {
    forall c :: c in cs ==> c.Idle() && (c.Complete() || c.received == 0)
  }

  lemma PiecesTile(c: Chunk, start: nat, n: nat, from: nat)
    requires c.start == from <= start && start + n <= c.End() && n > 0 && c.Idle()
    ensures Tiles(Pieces(c, start, n), from, c.End()) && Settled(Pieces(c, start, n))
  {
    var a, b, d := Chunk(from, start - from, start - from, None), Chunk(start, n, 0, None),
                   Chunk(start + n, c.End() - start - n, c.End() - start - n, None);
    var p := Pieces(c, start, n);
    OfOne(b, start, start + n);
    OfTwo(b, d, start, c.End());
    if start > from {
      assert p[1..] == [b] + if start + n < c.End() then [d] else [];
    }
    if start + n < c.End() {
      assert [b] + [d] == [b, d];
    } else {
      assert [b] + [] == [b];
    }
    if start == from {
      assert p == [b] + if start + n < c.End() then [d] else [];
    }
  }

  lemma TilesCons(c: Chunk, rest: seq<Chunk>, from: nat, to: nat)
    ensures Tiles([c] + rest, from, to) <==> c.start == from && c.received <= c.size && Tiles(rest, c.End(), to)
  {
    assert ([c] + rest)[1..] == rest;
  }

  lemma SettledConcat(a: seq<Chunk>, b: seq<Chunk>)
    ensures Settled(a + b) <==> Settled(a) && Settled(b)
  {
    forall c
      ensures c in a + b <==> c in a || c in b
    {
    }
  }

  lemma SettledOne(c: Chunk)
    requires Settled([c])
    ensures c.Idle()
  {
    assert c in [c];
  }

  lemma CutOutMeans(cs: seq<Chunk>, start: nat, n: nat)
    requires CutOut(cs, start, n).Some?
    ensures var i := Locate(cs, start);
      && i < |cs| && cs[i].start <= start && start + n <= cs[i].End()
      && CutOut(cs, start, n).value == cs[..i] + (Pieces(cs[i], start, n) + cs[i + 1..])
  {
    hide Pieces;
  }

  lemma CutOutTiles(cs: seq<Chunk>, start: nat, n: nat, size: nat)
    requires Tiles(cs, 0, size) && Settled(cs) && n > 0 && CutOut(cs, start, n).Some?
    ensures Tiles(CutOut(cs, start, n).value, 0, size) && Settled(CutOut(cs, start, n).value)
  {
    hide *;
    CutOutMeans(cs, start, n);
    var i := Locate(cs, start);
    var c, pre, post := cs[i], cs[..i], cs[i + 1..];
    var at := Span(pre, 0);
    assert cs == pre + ([c] + post);
    TilesConcat(pre, [c] + post, 0, size);
    TilesCons(c, post, at, size);
    SettledConcat(pre, [c] + post);
    SettledConcat([c], post);
    SettledOne(c);
    PiecesTile(c, start, n, at);
    var p := Pieces(c, start, n);
    TilesSpan(p, at, c.End());
    TilesConcat(p, post, at, size);
    TilesConcat(pre, p + post, 0, size);
    SettledConcat(p, post);
    SettledConcat(pre, p + post);
  }

  lemma {:induction false} ReadRangesTiles(cs: seq<Chunk>, bytes: seq<byte>, current: nat, size: nat)
    requires Tiles(cs, 0, size) && Settled(cs) && ReadRanges(cs, bytes, current).Some?
    ensures Tiles(ReadRanges(cs, bytes, current).value.0, 0, size) && Settled(ReadRanges(cs, bytes, current).value.0)
    decreases |bytes|
  {
    hide FromLE32, CutOut;
    var start, end := FromLE32(bytes), FromLE32(bytes[4..]);
    if !(start == 0 && end == 0) {
      CutOutTiles(cs, start, end - start + 1, size);
      ReadRangesTiles(CutOut(cs, start, end - start + 1).value, bytes[8..], current, size);
    }
  }

  lemma UncutTiles(size: nat, current: nat)
    requires current <= size < U32
    ensures Tiles(Uncut(size, current), 0, size) && Settled(Uncut(size, current))
  {
    OfTwo(Chunk(0, current, current, None), Chunk(current, size - current, 0, None), 0, size);
  }

  /** Something starts where the media part ends. */
  ghost predicate StartsAt(cs: seq<Chunk>, x: nat) {
    exists c :: c in cs && c.start == x
  }

  lemma CutOutKeepsEnd(cs: seq<Chunk>, start: nat, n: nat, current: nat)
    requires CutOut(cs, start, n).Some? && start < current && StartsAt(cs, current)
    ensures StartsAt(CutOut(cs, start, n).value, current)
  {
    var i, r := Locate(cs, start), CutOut(cs, start, n).value;
    var c :| c in cs && c.start == current;
    var k :| 0 <= k < |cs| && cs[k] == c;
    assert k != i;
    assert c in cs[..i] + Pieces(cs[i], start, n) + cs[i + 1..] by {
      if k < i {
        assert cs[..i][k] == c;
      } else {
        assert cs[i + 1..][k - i - 1] == c;
      }
    }
  }

  lemma {:induction false} ReadRangesKeepsEnd(cs: seq<Chunk>, bytes: seq<byte>, current: nat)
    requires StartsAt(cs, current) && ReadRanges(cs, bytes, current).Some?
    ensures StartsAt(ReadRanges(cs, bytes, current).value.0, current)
    decreases |bytes|
  {
    hide FromLE32, CutOut, StartsAt;
    var start, end := FromLE32(bytes), FromLE32(bytes[4..]);
    if !(start == 0 && end == 0) {
      CutOutKeepsEnd(cs, start, end - start + 1, current);
      ReadRangesKeepsEnd(CutOut(cs, start, end - start + 1).value, bytes[8..], current);
    }
  }

  /** Whatever the packet holds: if the chunks load, they partition the file and
      each is complete or empty, unless the media part is longer than the recorded
      size, which the code does not look at. */
  lemma LoadIsPartition(bytes: seq<byte>, size: nat, current: nat)
    requires size < U32 && ReadRanges(Uncut(size, current), bytes, current).Some?
    ensures var cs := ReadRanges(Uncut(size, current), bytes, current).value.0;
      && (Tiles(cs, 0, size) <==> current <= size)
      && (current <= size ==> Settled(cs))
  {
    hide ReadRanges, Tiles, Settled;
    var cs := ReadRanges(Uncut(size, current), bytes, current).value.0;
    if current <= size {
      UncutTiles(size, current);
      hide Uncut;
      ReadRangesTiles(Uncut(size, current), bytes, current, size);
    } else {
      assert Uncut(size, current)[1].start == current;
      hide Uncut;
      ReadRangesKeepsEnd(Uncut(size, current), bytes, current);
      var c :| c in cs && c.start == current;
      if Tiles(cs, 0, size) {
        TilesBounds(cs, 0, size, c);
      }
    }
  }

  /** The recount in `as_downstate_load`: the sizes of the complete chunks. */
  function CompleteBytes(cs: seq<Chunk>): nat {
    if cs == [] then 0
    else (if cs[0].Complete() then cs[0].size else 0) + CompleteBytes(cs[1..])
  }

  lemma {:induction false} RecountIsGot(cs: seq<Chunk>)
    requires Settled(cs)
    ensures CompleteBytes(cs) == Got(cs)
  {
    if cs != [] {
      assert cs[0] in cs;
      RecountIsGot(cs[1..]);
    }
  }

  // ------------------------------------------------------------- save then load

  /** What is left of the big complete chunk after everything before `p` is read,
      and the empty chunk of size zero that follows it. */
  function Tail(p: nat, size: nat): seq<Chunk>
    requires p <= size
  {
    (if p < size then [Chunk(p, size - p, size - p, None)] else []) + [Chunk(size, 0, 0, None)]
  }

  /** The list `read_chunks` rebuilds for `cs`, from position `p` on. */
  function Rebuilt(cs: seq<Chunk>, p: nat, size: nat): seq<Chunk>
    requires p <= size && forall c :: c in cs ==> c.End() <= size
  {
    if cs == [] then Tail(p, size)
    else if cs[0].Complete() then Rebuilt(cs[1..], p, size)
    else (if cs[0].start > p then [Chunk(p, cs[0].start - p, cs[0].start - p, None)] else [])
         + [Chunk(cs[0].start, cs[0].size, 0, None)] + Rebuilt(cs[1..], cs[0].End(), size)
  }

  ghost predicate Behind(cs: seq<Chunk>, p: nat) {
    forall c :: c in cs ==> c.End() <= p
  }

  lemma LocateInTail(d: seq<Chunk>, p: nat, size: nat, x: nat)
    requires Behind(d, p) && p <= x < size
    ensures Locate(d + Tail(p, size), x) == |d|
  {
    var all := d + Tail(p, size);
    var i := Locate(all, x);
    assert all[|d|] == Chunk(p, size - p, size - p, None);
    forall j | 0 <= j < |d|
      ensures !Contains(all[j], x)
    {
      assert d[j] in d;
    }
  }

  /** Reading one range of at least two bytes that starts at or after `p`. */
  lemma CutOutOfTail(d: seq<Chunk>, p: nat, size: nat, start: nat, n: nat)
    requires Behind(d, p) && p <= start && start + n <= size && n > 0
    ensures var gap := if start > p then [Chunk(p, start - p, start - p, None)] else [];
      CutOut(d + Tail(p, size), start, n) == Some(d + gap + [Chunk(start, n, 0, None)] + Tail(start + n, size))
  {
    var all := d + Tail(p, size);
    LocateInTail(d, p, size, start);
    assert all[|d|] == Chunk(p, size - p, size - p, None);
    assert all[..|d|] == d && all[|d| + 1..] == [Chunk(size, 0, 0, None)];
    var gap := if start > p then [Chunk(p, start - p, start - p, None)] else [];
    assert Pieces(all[|d|], start, n) + [Chunk(size, 0, 0, None)] == gap + [Chunk(start, n, 0, None)] +
        Tail(start + n, size);
    assert |d| < |all|;
    hide Pieces, Locate, Tail;
    var ps := Pieces(all[|d|], start, n);
    assert CutOut(all, start, n) == Some(d + ps + [Chunk(size, 0, 0, None)]);
    assert d + ps + [Chunk(size, 0, 0, None)] == d + (ps + [Chunk(size, 0, 0, None)]);
    assert d + (gap + [Chunk(start, n, 0, None)] + Tail(start + n, size))
        == d + gap + [Chunk(start, n, 0, None)] + Tail(start + n, size);
  }

  lemma BehindExtends(d: seq<Chunk>, p: nat, start: nat, n: nat)
    requires Behind(d, p) && p <= start
    ensures var gap := if start > p then [Chunk(p, start - p, start - p, None)] else [];
      Behind(d + gap + [Chunk(start, n, 0, None)], start + n)
  {
  }

  lemma ReadOneRange(start: nat, end: nat, rest: seq<byte>)
    requires start < U32 && end < U32
    ensures var b := LE32(start) + LE32(end) + rest;
      |b| >= 8 && FromLE32(b) == start && FromLE32(b[4..]) == end && b[8..] == rest
  {
    var b := LE32(start) + LE32(end) + rest;
    LE32RoundTrip(start, LE32(end) + rest);
    LE32RoundTrip(end, rest);
    hide FromLE32;
    assert b == LE32(start) + (LE32(end) + rest);
    assert b[4..] == LE32(end) + rest;
  }

  /** One round of the reading loop on the bytes of one incomplete chunk. */
  lemma ReadChunkRange(cs: seq<Chunk>, c: Chunk, rest: seq<byte>, current: nat)
    requires c.size > 0 && c.End() <= current < U32
    ensures var b := LE32(c.start) + LE32(c.End() - 1) + rest;
      ReadRanges(cs, b, current) ==
        if c.start == 0 && c.size == 1 then Some((cs, rest))
        else if c.size == 1 then None
        else match CutOut(cs, c.start, c.size)
          case None => None
          case Some(cs') => ReadRanges(cs', rest, current)
  {
    hide LE32, FromLE32, CutOut;
    ReadOneRange(c.start, c.End() - 1, rest);
  }

  lemma ReadTerminator(cs: seq<Chunk>, rest: seq<byte>, current: nat)
    ensures ReadRanges(cs, LE32(0) + LE32(0) + rest, current) == Some((cs, rest))
  {
    hide LE32, FromLE32, CutOut;
    ReadOneRange(0, 0, rest);
  }

  lemma NextChunkBytes(cs: seq<Chunk>, tail: seq<byte>)
    requires cs != [] && Saveable(cs)
    ensures Saveable(cs[1..])
    ensures cs[0].Complete() ==> ChunkBytes(cs) + tail == ChunkBytes(cs[1..]) + tail
    ensures !cs[0].Complete() ==> cs[0].End() > 0 && cs[0].End() < U32
    ensures !cs[0].Complete() ==>
      ChunkBytes(cs) + tail == LE32(cs[0].start) + LE32(cs[0].End() - 1) + (ChunkBytes(cs[1..]) + tail)
  {
    hide LE32, Saveable, RangeBytes;
    RangeBytesNext(cs);
  }

  ghost predicate AtLeastTwo(cs: seq<Chunk>) {
    forall c :: c in cs && !c.Complete() ==> c.size >= 2
  }

  lemma TilesSaveable(cs: seq<Chunk>, from: nat, size: nat)
    requires Tiles(cs, from, size) && size < U32
    ensures Saveable(cs) && forall c :: c in cs ==> c.End() <= size
  {
    forall c | c in cs
      ensures c.End() <= size && c.received <= c.size
    {
      TilesBounds(cs, from, size, c);
    }
  }

  lemma ChunkBytesNone(tail: seq<byte>)
    ensures Saveable([]) && ChunkBytes([]) + tail == LE32(0) + LE32(0) + tail
  {
    hide LE32;
    NoRanges();
  }

  lemma RebuiltNone(p: nat, size: nat)
    requires p <= size
    ensures Rebuilt([], p, size) == Tail(p, size)
  {
  }

  lemma RebuiltNext(cs: seq<Chunk>, p: nat, size: nat)
    requires p <= size && cs != []
    requires (forall c :: c in cs ==> c.End() <= size) && forall c :: c in cs[1..] ==> c.End() <= size
    ensures Rebuilt(cs, p, size) ==
            (if cs[0].Complete() then Rebuilt(cs[1..], p, size)
             else (if cs[0].start > p then [Chunk(p, cs[0].start - p, cs[0].start - p, None)] else [])
                  + [Chunk(cs[0].start, cs[0].size, 0, None)] + Rebuilt(cs[1..], cs[0].End(), size))
  {
  }

  lemma {:induction false} ReadBack(d: seq<Chunk>, cs: seq<Chunk>, p: nat, from: nat, size: nat, tail: seq<byte>)
    requires Tiles(cs, from, size) && p <= from && size < U32 && Behind(d, p) && AtLeastTwo(cs)
    ensures Saveable(cs) && forall c :: c in cs ==> c.End() <= size
    ensures from <= size
    ensures ReadRanges(d + Tail(p, size), ChunkBytes(cs) + tail, size) == Some((d + Rebuilt(cs, p, size), tail))
    decreases |cs|
  {
    hide LE32, FromLE32, CutOut, Tail, ReadRanges, RangeBytes, ChunkBytes, Saveable, Behind, Rebuilt;
    TilesSaveable(cs, from, size);
    TilesSpan(cs, from, size);
    if cs == [] {
      ChunkBytesNone(tail);
      RebuiltNone(p, size);
      ReadTerminator(d + Tail(p, size), tail, size);
    } else {
      var c, rest := cs[0], cs[1..];
      TilesSaveable(rest, c.End(), size);
      NextChunkBytes(cs, tail);
      RebuiltNext(cs, p, size);
      if c.Complete() {
        ReadBack(d, rest, p, c.End(), size, tail);
      } else {
        assert c in cs;
        var gap := if c.start > p then [Chunk(p, c.start - p, c.start - p, None)] else [];
        var d' := d + gap + [Chunk(c.start, c.size, 0, None)];
        ReadChunkRange(d + Tail(p, size), c, ChunkBytes(rest) + tail, size);
        CutOutOfTail(d, p, size, c.start, c.size);
        BehindExtends(d, p, c.start, c.size);
        ReadBack(d', rest, c.End(), c.End(), size, tail);
        assert d' + Rebuilt(rest, c.End(), size) == d + Rebuilt(cs, p, size);
      }
    }
  }

  lemma TailFacts(p: nat, size: nat)
    requires p <= size
    ensures Tiles(Tail(p, size), p, size) && Settled(Tail(p, size))
    ensures forall x: nat :: Has(Tail(p, size), x) <==> p <= x < size
  {
    var a, z := Chunk(p, size - p, size - p, None), Chunk(size, 0, 0, None);
    OfTwo(a, z, p, size);
    OfOne(z, size, size);
    assert [a] + [z] == [a, z] && [] + [z] == [z];
  }

  lemma GapFacts(p: nat, start: nat, n: nat)
    requires p <= start
    ensures var head := (if start > p then [Chunk(p, start - p, start - p, None)] else []) + [Chunk(start, n, 0, None)];
      && Tiles(head, p, start + n) && Settled(head)
      && (forall x: nat :: Has(head, x) <==> p <= x < start)
  {
    var a, c := Chunk(p, start - p, start - p, None), Chunk(start, n, 0, None);
    OfTwo(a, c, p, start + n);
    OfOne(c, p, start + n);
    assert [a] + [c] == [a, c] && [] + [c] == [c];
  }

  lemma {:induction false} RebuiltFacts(cs: seq<Chunk>, p: nat, from: nat, size: nat)
    requires Tiles(cs, from, size) && p <= from <= size && forall c :: c in cs ==> c.End() <= size
    ensures Tiles(Rebuilt(cs, p, size), p, size) && Settled(Rebuilt(cs, p, size))
    ensures forall x: nat :: Has(Rebuilt(cs, p, size), x) <==> p <= x < from || Safe(cs, x)
  {
    if cs == [] {
      TailFacts(p, size);
    } else {
      var c, rest := cs[0], cs[1..];
      assert c in cs;
      if c.Complete() {
        RebuiltFacts(rest, p, c.End(), size);
      } else {
        var head := (if c.start > p then [Chunk(p, c.start - p, c.start - p, None)] else []) +
            [Chunk(c.start, c.size, 0, None)];
        GapFacts(p, c.start, c.size);
        RebuiltFacts(rest, c.End(), c.End(), size);
        TilesSpan(head, p, c.End());
        var r := Rebuilt(rest, c.End(), size);
        assert Rebuilt(cs, p, size) == head + r;
        TilesConcat(head, r, p, size);
        SettledConcat(head, r);
        forall x: nat
          ensures Has(head + r, x) <==> p <= x < from || Safe(cs, x)
        {
          HasConcat(head, r, x);
        }
      }
    }
  }

  /** Loading what was saved for `cs` gives a partition in which exactly the bytes
      of complete chunks are marked present. */
  ghost predicate Restores(cs: seq<Chunk>, size: nat, tail: seq<byte>)
    requires Saveable(cs)
  {
    match ReadRanges(Uncut(size, size), ChunkBytes(cs) + tail, size)
    case None => false
    case Some((loaded, rest)) =>
      && rest == tail
      && Tiles(loaded, 0, size) && Settled(loaded) && CompleteBytes(loaded) == Got(loaded)
      && (forall x: nat :: Has(loaded, x) <==> Safe(cs, x))
  }

  lemma UncutIsTail(size: nat)
    requires 0 < size < U32
    ensures Uncut(size, size) == [] + Tail(0, size)
  {
  }

  lemma SaveThenLoad(cs: seq<Chunk>, size: nat, tail: seq<byte>)
    requires Tiles(cs, 0, size) && 0 < size < U32 && AtLeastTwo(cs)
    ensures Saveable(cs) && Restores(cs, size, tail)
  {
    hide LE32, FromLE32, CutOut, Tail, Uncut;
    TilesSaveable(cs, 0, size);
    UncutIsTail(size);
    ReadBack([], cs, 0, 0, size, tail);
    assert [] + Rebuilt(cs, 0, size) == Rebuilt(cs, 0, size);
    RebuiltFacts(cs, 0, 0, size);
    RecountIsGot(Rebuilt(cs, 0, size));
  }

  /** One missing range of a single byte spoils the load: it is either rejected
      or, at the start of the file, taken for the terminator. */
  lemma {:induction false} SingleByteSpoils(d: seq<Chunk>, cs: seq<Chunk>, p: nat, from: nat, size: nat,
      tail: seq<byte>)
    requires Tiles(cs, from, size) && p <= from <= size < U32 && Behind(d, p) && !AtLeastTwo(cs)
    requires Saveable(cs)
    requires from == 0 ==> d == []
    ensures match ReadRanges(d + Tail(p, size), ChunkBytes(cs) + tail, size)
      case None => true
      case Some((loaded, rest)) => from == 0 && loaded == Tail(0, size) && size > 0 && !Safe(cs, 0)
    decreases |cs|
  {
    hide LE32, FromLE32, CutOut, Tail, ReadRanges, RangeBytes, ChunkBytes;
    var c, rest := cs[0], cs[1..];
    assert c in cs;
    TilesBounds(cs, from, size, c);
    NextChunkBytes(cs, tail);
    if c.Complete() {
      RestStillShort(cs);
      SingleByteSpoils(d, rest, p, c.End(), size, tail);
    } else {
      ReadChunkRange(d + Tail(p, size), c, ChunkBytes(rest) + tail, size);
      if c.size >= 2 {
        var gap := if c.start > p then [Chunk(p, c.start - p, c.start - p, None)] else [];
        CutOutOfTail(d, p, size, c.start, c.size);
        BehindExtends(d, p, c.start, c.size);
        RestStillShort(cs);
        SingleByteSpoils(d + gap + [Chunk(c.start, c.size, 0, None)], rest, c.End(), c.End(), size, tail);
      } else {
        assert [] + Tail(0, size) == Tail(0, size);
        SafeBound(rest, c.End(), size, 0);
      }
    }
  }

  lemma {:induction false} SafeBound(cs: seq<Chunk>, from: nat, size: nat, x: nat)
    requires Tiles(cs, from, size) && x < from
    ensures !Safe(cs, x)
  {
    if cs != [] {
      SafeBound(cs[1..], cs[0].End(), size, x);
    }
  }

  lemma RestStillShort(cs: seq<Chunk>)
    requires cs != [] && !AtLeastTwo(cs) && (cs[0].Complete() || cs[0].size >= 2)
    ensures !AtLeastTwo(cs[1..])
  {
    var c :| c in cs && !c.Complete() && c.size < 2;
    assert cs == [cs[0]] + cs[1..];
    assert c in cs[1..];
  }

  /** Exactly which chunk lists survive being saved and loaded: those in which
      every incomplete chunk has at least two bytes. */
  lemma SaveThenLoadIff(cs: seq<Chunk>, size: nat, tail: seq<byte>)
    requires Tiles(cs, 0, size) && 0 < size < U32
    ensures Saveable(cs)
    ensures Restores(cs, size, tail) <==> AtLeastTwo(cs)
  {
    TilesSaveable(cs, 0, size);
    if AtLeastTwo(cs) {
      SaveThenLoad(cs, size, tail);
    } else {
      SpoiledIf(cs, size, tail);
    }
  }

  /** A file of one byte that is still missing loads as complete. */
  lemma OneByteLoadsComplete(tail: seq<byte>)
    ensures var cs := [Chunk(0, 1, 0, None)];
      && Tiles(cs, 0, 1) && Saveable(cs)
      && ReadRanges(Uncut(1, 1), ChunkBytes(cs) + tail, 1)
         == Some(([Chunk(0, 1, 1, None), Chunk(1, 0, 0, None)], LE32(0) + LE32(0) + tail))
  {
    var c := Chunk(0, 1, 0, None);
    OfOne(c, 0, 1);
    assert [c][1..] == [];
    NextChunkBytes([c], tail);
    ChunkBytesNone(tail);
    ReadChunkRange(Uncut(1, 1), c, LE32(0) + LE32(0) + tail, 1);
    hide ReadRanges, ChunkBytes, LE32;
  }

  /** With only the last byte missing the record does not load at all. */
  lemma LastByteFails(n: nat, tail: seq<byte>)
    requires 0 < n && n + 1 < U32
    ensures var cs := [Chunk(0, n, n, None), Chunk(n, 1, 0, None)];
      Tiles(cs, 0, n + 1) && Saveable(cs) && ReadRanges(Uncut(n + 1, n + 1), ChunkBytes(cs) + tail, n + 1) == None
  {
    var a, c := Chunk(0, n, n, None), Chunk(n, 1, 0, None);
    var cs := [a, c];
    hide ReadRanges, ChunkBytes;
    OfTwo(a, c, 0, n + 1);
    TilesSaveable(cs, 0, n + 1);
    assert cs[1] in cs && a.Complete() && a.Holds(0);
    SpoiledIf(cs, n + 1, tail);
  }

  // --------------------------------------------------- the record at end of file

  /** `___ARESTRA__2` */
  const Magic: seq<byte> := [0x5F, 0x5F, 0x5F, 0x41, 0x52, 0x45, 0x53, 0x54, 0x52, 0x41, 0x5F, 0x5F, 0x32]

  const Block: nat := 4096

  const MagicLen: nat := 13

  lemma MagicLength()
    ensures |Magic| == MagicLen
  {
  }

  lemma MagicText()
    ensures |Magic| == |"___ARESTRA__2"| && forall i :: 0 <= i < |Magic| ==> Val(Magic[i]) == "___ARESTRA__2"[i] as int
  {
  }

  function Padding(n: nat): nat { Block - (n + MagicLen) % Block }

  /** What `write_state` puts at the end of the file. */
  function Record(packet: seq<byte>): seq<byte> {
    Magic + packet + seq(Padding(|packet|), _ => 0)
  }

  lemma RecordLength(packet: seq<byte>)
    ensures |Record(packet)| % 4096 == 0 && 4096 <= |Record(packet)| <= 13 + |packet| + 4096
    ensures forall i :: 13 + |packet| <= i < |Record(packet)| ==> Record(packet)[i] == 0
    ensures |Record(packet)| % Block == 0 && |Record(packet)| >= Block
    ensures |Record(packet)| >= MagicLen + |packet|
    ensures Record(packet)[..MagicLen] == Magic
    ensures Record(packet)[MagicLen..MagicLen + |packet|] == packet
  {
    hide Magic;
    MagicLength();
    var n := |packet| + MagicLen;
    assert |Record(packet)| == n + (Block - n % Block);
    assert (n + (Block - n % Block)) == (n / Block + 1) * Block;
  }

  /** A block border with the magic behind it. */
  ghost predicate MagicAt(file: seq<byte>, pos: nat) {
    pos + MagicLen <= |file| && file[pos..pos + MagicLen] == Magic
  }

  /** `read_state`: search backwards for the magic, at most 16 blocks. Gives the
      packet and the size of the media part. */
  function FindState(file: seq<byte>, i: nat): (r: Option<(seq<byte>, nat)>)
    requires i >= 1
    ensures r.Some? ==> |r.value.0| >= Block - MagicLen
    decreases 17 - i
  {
    if i > 16 || i * Block > |file| then None
    else
      var pos := |file| - i * Block;
      if file[pos..pos + MagicLen] == Magic then Some((file[pos + MagicLen..], pos))
      else FindState(file, i + 1)
  }

  method ReadState(file: seq<byte>) returns (r: Option<(seq<byte>, nat)>)
    ensures r == FindState(file, 1)
  {
    hide Magic;
    var i := 1;
    while i <= 16
      invariant 1 <= i <= 17 && FindState(file, i) == FindState(file, 1)
    {
      if i * Block > |file| {
        return None;
      }
      var pos := |file| - i * Block;
      if file[pos..pos + MagicLen] == Magic {
        return Some((file[pos + MagicLen..], pos));
      }
      i := i + 1;
    }
    return None;
  }

  /** A media part of `size` bytes with room for whole blocks behind it. */
  ghost predicate Blocky(file: seq<byte>, size: nat) {
    |file| <= size || (|file| - size) % Block == 0
  }

  /** `write_state`. */
  function WithState(file: seq<byte>, packet: seq<byte>, size: nat): seq<byte> {
    WriteAt(file, size, Record(packet))
  }

  lemma WithStateFacts(file: seq<byte>, packet: seq<byte>, size: nat)
    requires Blocky(file, size)
    ensures var g := WithState(file, packet, size);
      && |g| >= size + Block && (|g| - size) % Block == 0 && Blocky(g, size)
      && MagicAt(g, size)
      && |g| - size - MagicLen >= |packet| && g[size + MagicLen..][..|packet|] == packet
      && (forall x: nat :: x < size && x < |file| ==> g[x] == file[x])
  {
    hide Magic;
    var r := Record(packet);
    RecordLength(packet);
    hide Record;
    var g := WithState(file, packet, size);
    assert g[size..size + |r|] == r;
    assert g[size..size + MagicLen] == r[..MagicLen];
    assert g[size + MagicLen..][..|packet|] == r[MagicLen..MagicLen + |packet|];
    assert |g| == size + |r| || |g| == |file|;
  }

  lemma {:induction false} FindStateFrom(g: seq<byte>, size: nat, m: nat, i: nat)
    requires |g| == size + m * Block && 1 <= i <= m && MagicAt(g, size)
    ensures FindState(g, i) == Some((g[size + MagicLen..], size)) <==>
            m <= 16 && forall k: nat :: i <= k < m ==> !MagicAt(g, |g| - k * Block)
    decreases m - i
  {
    hide MagicAt, FindState;
    BlockPositions(|g|, size, m, i);
    FindStateNext(g, i);
    if i <= 16 && i < m {
      FindStateFrom(g, size, m, i + 1);
    }
  }

  /** One step of the search. */
  lemma FindStateNext(g: seq<byte>, i: nat)
    requires i >= 1 && i * Block <= |g|
    ensures FindState(g, i) ==
      if i > 16 then None
      else if MagicAt(g, |g| - i * Block) then Some((g[|g| - i * Block + MagicLen..], |g| - i * Block))
      else FindState(g, i + 1)
  {
    hide Magic;
  }

  lemma BlockPositions(n: nat, size: nat, m: nat, i: nat)
    requires n == size + m * Block && i <= m
    ensures n - i * Block >= size
    ensures n - i * Block == size <==> i == m
    ensures i > 0 ==> n - i * Block + Block <= n
  {
    assert (m - i) * Block == m * Block - i * Block;
  }

  lemma WholeBlocks(n: nat)
    requires n % Block == 0 && n >= Block
    ensures Block == 4096 && n == n / Block * Block && n / Block >= 1
  {
  }

  /** Exactly when the record just written is the one that is found again: it must
      start within 16 blocks of the end, and no later block border may happen to
      carry the magic. */
  lemma RecordFoundIff(file: seq<byte>, packet: seq<byte>, size: nat)
    requires Blocky(file, size)
    ensures var g := WithState(file, packet, size);
      var m := (|g| - size) / Block;
      |g| >= size &&
      (FindState(g, 1) == Some((g[size + MagicLen..], size)) <==>
      m <= 16 && forall k: nat :: 1 <= k < m ==> !MagicAt(g, |g| - k * Block))
  {
    hide *;
    WithStateFacts(file, packet, size);
    var g := WithState(file, packet, size);
    WholeBlocks(|g| - size);
    FindStateFrom(g, size, (|g| - size) / Block, 1);
  }

  // -------------------------------------------------------------- save and load

  /** The state record of a download (`as_downstate_save`); `tlvs` stands for the
      hash and the sources that follow. */
  function StatePacket(size: nat, cs: seq<Chunk>, paused: bool, tlvs: seq<byte>): seq<byte>
    requires size < U32 && CompleteBytes(cs) < U32 && Saveable(cs)
  {
    LE32(size) + LE32(CompleteBytes(cs)) + ChunkBytes(cs) + Flags(paused) + tlvs
  }

  function Flags(paused: bool): seq<byte> {
    [1, if paused then 1 else 0] + LE32(0x80) + LE32(0) + LE32(0xF8)
  }

  datatype Loaded = Loaded(size: nat, received: nat, cs: seq<Chunk>, paused: bool)

  /** `as_downstate_load` up to the hash and the sources. */
  function LoadPacket(bytes: seq<byte>, current: nat): Option<Loaded>
    requires |bytes| >= 8
  {
    var size := FromLE32(bytes);
    match ReadRanges(Uncut(size, current), bytes[8..], current)
    case None => None
    case Some((cs, rest)) =>
      if |rest| < 16 then None else Some(Loaded(size, CompleteBytes(cs), cs, rest[1] == 1))
  }

  lemma {:induction false} CompleteAtMost(cs: seq<Chunk>, from: nat, size: nat)
    requires Tiles(cs, from, size)
    ensures from + CompleteBytes(cs) <= size
  {
    if cs != [] {
      CompleteAtMost(cs[1..], cs[0].End(), size);
    }
  }

  /** The file size, the flag and exactly the bytes of complete chunks are back. */
  ghost predicate BringsBack(r: Option<Loaded>, size: nat, cs: seq<Chunk>, paused: bool) {
    && r.Some? && r.value.size == size && r.value.paused == paused
    && Tiles(r.value.cs, 0, size) && Settled(r.value.cs) && r.value.received == Got(r.value.cs)
    && forall x: nat :: Has(r.value.cs, x) <==> Safe(cs, x)
  }

  /** Exactly when the packet the record holds, followed by whatever is behind it in
      the file, loads as the chunk list it was saved from. */
  lemma SavedPacketLoads(size: nat, cs: seq<Chunk>, paused: bool, tlvs: seq<byte>, tail: seq<byte>)
    requires Tiles(cs, 0, size) && 0 < size < U32 && |tlvs| >= 2
    ensures CompleteBytes(cs) < U32 && Saveable(cs)
    ensures var bytes := StatePacket(size, cs, paused, tlvs) + tail;
      && |bytes| >= 8 && FromLE32(bytes) == size
      && (BringsBack(LoadPacket(bytes, size), size, cs, paused) <==> AtLeastTwo(cs))
  {
    hide LE32, FromLE32, ChunkBytes, ReadRanges, Uncut, AtLeastTwo, Tiles, Settled, Got, Has, Safe;
    CompleteAtMost(cs, 0, size);
    TilesSaveable(cs, 0, size);
    var bytes := StatePacket(size, cs, paused, tlvs) + tail;
    var rest := Flags(paused) + tlvs + tail;
    ReadOneRange(size, CompleteBytes(cs), ChunkBytes(cs) + rest);
    assert bytes == LE32(size) + LE32(CompleteBytes(cs)) + (ChunkBytes(cs) + rest);
    SaveThenLoadIff(cs, size, rest);
    if !AtLeastTwo(cs) {
      SpoiledIf(cs, size, rest);
    }
    FlagsLength(paused);
  }

  /** When the load is spoiled it is so for good: there is nothing, or too much. */
  lemma SpoiledIf(cs: seq<Chunk>, size: nat, tail: seq<byte>)
    requires Tiles(cs, 0, size) && 0 < size < U32 && Saveable(cs) && !AtLeastTwo(cs)
    ensures match ReadRanges(Uncut(size, size), ChunkBytes(cs) + tail, size)
      case None => true
      case Some((loaded, rest)) => Has(loaded, 0) && !Safe(cs, 0)
  {
    hide ReadRanges, ChunkBytes;
    UncutIsTail(size);
    SingleByteSpoils([], cs, 0, 0, size, tail);
    TailFacts(0, size);
  }

  lemma FlagsLength(paused: bool)
    ensures |Flags(paused)| == 14 && Flags(paused)[1] == if paused then 1 else 0
  {
  }

  /** `as_downstate_load` on the packet found in the file. */
  method LoadState(bytes: seq<byte>, current: nat) returns (r: Option<Loaded>)
    requires |bytes| >= 8
    ensures r == LoadPacket(bytes, current)
  {
    hide LE32, FromLE32, ReadRanges, CompleteBytes;
    var packet := new Packet();
    packet.PutUstr(bytes);
    assert packet.Rest() == bytes;
    var size := packet.GetLE32();
    var _ := packet.GetLE32();
    assert packet.Rest() == bytes[8..];
    var ok, cs := ReadChunks(packet, size, current);
    if !ok {
      return None;
    }
    var received := Recount(cs);
    var remaining := packet.Remaining();
    if remaining < 16 {
      return None;
    }
    ghost var rest := packet.Rest();
    var _ := packet.Get8();
    var flag := packet.Get8();
    assert flag == rest[1];
    r := Some(Loaded(size, received, cs, flag == 1));
  }

  method Recount(cs: seq<Chunk>) returns (n: nat)
    ensures n == CompleteBytes(cs)
  {
    n := 0;
    for i := |cs| downto 0
      invariant n == CompleteBytes(cs[i..])
    {
      assert cs[i..][1..] == cs[i + 1..];
      if cs[i].Complete() {
        n := n + cs[i].size;
      }
    }
    assert cs[0..] == cs;
  }

  /** The media part found in the file is not longer than the record says. */
  ghost predicate Plausible(image: seq<byte>) {
    var r := FindState(image, 1);
    r.Some? ==> r.value.1 <= FromLE32(r.value.0)
  }

  /** `as_downstate_load` on a file. */
  ghost function LoadImage(image: seq<byte>): Option<Loaded> {
    match FindState(image, 1)
    case None => None
    case Some((bytes, current)) => LoadPacket(bytes, current)
  }

  /** Whatever loads is a valid starting point, exactly if the media part is not
      longer than the recorded size. */
  lemma LoadedIsPartition(image: seq<byte>)
    requires LoadImage(image).Some?
    ensures var l := LoadImage(image).value;
      && l.size < U32 && (Tiles(l.cs, 0, l.size) <==> Plausible(image))
      && (Plausible(image) ==> Settled(l.cs) && l.received == Got(l.cs))
  {
    hide LE32, ReadRanges, Uncut, FindState, Magic, Tiles, Settled, Got, CompleteBytes;
    var (bytes, current) := FindState(image, 1).value;
    FromLE32Bound(bytes);
    LoadIsPartition(bytes[8..], FromLE32(bytes), current);
    if Plausible(image) {
      RecountIsGot(LoadImage(image).value.cs);
    }
  }

  /** A download saved at any moment and loaded again: exactly when no incomplete
      chunk has a single byte, the bytes of complete chunks are marked present and no
      others. */
  lemma SavedImageLoads(disk: seq<byte>, size: nat, cs: seq<Chunk>, paused: bool, tlvs: seq<byte>)
    requires Blocky(disk, size) && Tiles(cs, 0, size) && 0 < size < U32 && |tlvs| >= 2
    ensures CompleteBytes(cs) < U32 && Saveable(cs)
    ensures var g := WithState(disk, StatePacket(size, cs, paused, tlvs), size);
      var m := (|g| - size) / Block;
      |g| >= size && ((m <= 16 && forall k: nat :: 1 <= k < m ==> !MagicAt(g, |g| - k * Block)) ==>
        Plausible(g) && (BringsBack(LoadImage(g), size, cs, paused) <==> AtLeastTwo(cs)))
  {
    hide *;
    CompleteAtMost(cs, 0, size);
    TilesSaveable(cs, 0, size);
    var packet := StatePacket(size, cs, paused, tlvs);
    var g := WithState(disk, packet, size);
    WithStateFacts(disk, packet, size);
    RecordFoundIff(disk, packet, size);
    var bytes := g[size + MagicLen..];
    assert bytes == packet + bytes[|packet|..];
    SavedPacketLoads(size, cs, paused, tlvs, bytes[|packet|..]);
    FoundLoads(g, bytes, size);
  }

  lemma FoundLoads(g: seq<byte>, bytes: seq<byte>, current: nat)
    requires |bytes| >= 8
    ensures FindState(g, 1) == Some((bytes, current)) ==>
      LoadImage(g) == LoadPacket(bytes, current) && (Plausible(g) <==> current <= FromLE32(bytes))
  {
    hide FindState, LoadPacket, FromLE32;
  }
}
