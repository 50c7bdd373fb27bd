/** The invariant of a running download (gift-ares/lib/as_download.c) over the
    values it is made of, and how every elementary update keeps it.

    The C structures point at each other; here a chunk is named by its start
    (which never changes while the chunk exists) and a connection by its source. */
module Engine {
  import opened Wrappers
  import opened Ordering
  import opened Chunks
  import opened Connections
  import opened Bytes
  import opened Files
  import opened Listing

  type ConnMap = map<Source, Conn>

  /** How far the connection records may be out of step with the chunk list.
      `Loose`: chunks may be complete and still attached, which is what a reply
      leaves behind that brings its whole body along with the header. Inside a
      callback also `Ahead`: the connection has counted `n` bytes that are not
      written yet. `Full`: its chunk is complete but still attached. `Over`: the
      same, and `n` bytes came that the chunk had no use for. `loose` tells whether
      the other connections are in step. */
  datatype Slack =
    | Tight
    | Loose
    | Ahead(s: Source, n: nat, loose: bool)
    | Full(s: Source)
    | Over(s: Source, n: nat, loose: bool) {
    function Extra(t: Source): nat {
      if (Ahead? || Over?) && s == t then n else 0
    }

    predicate MayBeComplete(t: Source) {
      Loose? || ((Ahead? || Over?) && loose) || ((Full? || Over?) && s == t)
    }

    /** What remains when the connection that is out of step lets go. */
    function Base(): Slack {
      if Loose? || ((Ahead? || Over?) && loose) then Loose else Tight
    }

    /** Nothing but connection `t` is inside a callback. */
    predicate Of(t: Source) { Tight? || Loose? || s == t }
  }

  ghost predicate Fits(c: Chunk, conn: ConnMap, slack: Slack)
    requires c.conn.Some?
  {
    var s := c.conn.value;
    && s in conn
    && conn[s].chunk == Some(c.start)
    && conn[s].chunkStart + conn[s].curr == c.start + c.received + slack.Extra(s)
    && c.End() <= conn[s].chunkStart + conn[s].chunkSize
    && 0 < c.size
    && (conn[s].state.Connecting? ==> conn[s].curr == 0 && c.received < c.size)
    && c.received <= c.size
    && (c.received < c.size || slack.MayBeComplete(s))
  }

  ghost predicate HasChunk(cs: seq<Chunk>, s: Source, start: nat) {
    exists c :: c in cs && c.start == start && c.conn == Some(s)
  }

  /** Chunk-to-connection and connection-to-chunk links are mutually inverse, each
      request continues where its chunk has got to and reaches at least to the
      chunk's end, and exactly the attached connections are busy. */
  ghost predicate Wired(cs: seq<Chunk>, conn: ConnMap, slack: Slack) {
    && (forall c :: c in cs && c.conn.Some? ==> Fits(c, conn, slack))
    && (forall s :: s in conn && conn[s].chunk.Some? ==> HasChunk(cs, s, conn[s].chunk.value))
    && (forall s :: s in conn ==> (conn[s].chunk.Some? <==> conn[s].Busy()))
  }

  /** Every byte counted as received is on disk and is the byte of the file `f`. */
  ghost predicate Faithful(cs: seq<Chunk>, disk: seq<byte>, f: seq<byte>) {
    forall x: nat :: Has(cs, x) ==> x < |disk| && x < |f| && disk[x] == f[x]
  }

  /** The chunks partition the file, byte accounting is conserved, and the bytes
      on disk are right. */
  ghost predicate Layout(size: nat, received: nat, cs: seq<Chunk>, disk: seq<byte>, f: seq<byte>) {
    && |f| == size
    && Tiles(cs, 0, size)
    && received == Got(cs)
    && Faithful(cs, disk, f)
  }

  function KeyOf(conn: ConnMap): Source -> Rank {
    s => if s in conn then RankOf(conn[s]) else Rank(false, 0)
  }

  /** The connection list is sorted. */
  ghost predicate Ordered(conns: seq<Source>, conn: ConnMap) {
    Sorted(conns, KeyOf(conn), RankCmp)
  }

  ghost predicate NoneAttached(conn: ConnMap) {
    forall s :: s in conn ==> conn[s].chunk.None?
  }

  function InState(conn: ConnMap, st: ConnState): set<Source> {
    set s | s in conn && conn[s].state == st
  }

  // ------------------------------------------------------------- stuck chunks

  /** Some chunk is complete and still attached. */
  ghost predicate AnyStuck(cs: seq<Chunk>) {
    exists c :: c in cs && c.conn.Some? && c.Complete()
  }

  /** The same for a chunk that another connection than `s` fetches. */
  ghost predicate AnyStuckBut(cs: seq<Chunk>, s: Source) {
    exists c :: c in cs && c.conn.Some? && c.conn != Some(s) && c.Complete()
  }

  /** The connection records are in step exactly when no chunk is stuck. */
  lemma LooseOrTight(cs: seq<Chunk>, conn: ConnMap)
    ensures Wired(cs, conn, Tight) <==> Wired(cs, conn, Loose) && !AnyStuck(cs)
  {
    if Wired(cs, conn, Loose) && !AnyStuck(cs) {
      forall c | c in cs && c.conn.Some?
        ensures Fits(c, conn, Tight)
      {
        assert Fits(c, conn, Loose);
      }
    }
    if Wired(cs, conn, Tight) {
      forall c | c in cs && c.conn.Some?
        ensures Fits(c, conn, Loose) && !c.Complete()
      {
        assert Fits(c, conn, Tight);
      }
    }
  }

  /** A request that has not been answered has a chunk with something left to fetch. */
  lemma ConnectingNotStuck(cs: seq<Chunk>, conn: ConnMap, s: Source, slack: Slack)
    requires Wired(cs, conn, slack) && s in conn && conn[s].state.Connecting?
    ensures AnyStuckBut(cs, s) <==> AnyStuck(cs)
  {
    if AnyStuck(cs) {
      var c :| c in cs && c.conn.Some? && c.Complete();
      assert Fits(c, conn, slack);
    }
  }

  lemma FullIsLoose(cs: seq<Chunk>, conn: ConnMap, s: Source)
    requires Wired(cs, conn, Full(s))
    ensures Wired(cs, conn, Loose) && !AnyStuckBut(cs, s)
  {
    forall c | c in cs && c.conn.Some?
      ensures Fits(c, conn, Loose) && (c.conn != Some(s) ==> !c.Complete())
    {
      assert Fits(c, conn, Full(s));
    }
  }

  // ------------------------------------------------------------ chunk updates

  /** `a` and `b` differ in who fetches what, and in nothing else. */
  ghost predicate SameShape(a: seq<Chunk>, b: seq<Chunk>) {
    |a| == |b| && forall i :: 0 <= i < |a| ==> a[i].(conn := None) == b[i].(conn := None)
  }

  lemma {:induction false} ShapeTiles(a: seq<Chunk>, b: seq<Chunk>, from: nat, to: nat)
    requires SameShape(a, b) && Tiles(a, from, to)
    ensures Tiles(b, from, to) && Got(a) == Got(b)
  {
    if a != [] {
      assert a[0].(conn := None) == b[0].(conn := None);
      ShapeTiles(a[1..], b[1..], a[0].End(), to);
    }
  }

  lemma {:induction false} ShapeHas(a: seq<Chunk>, b: seq<Chunk>, x: nat)
    requires SameShape(a, b)
    ensures Has(a, x) <==> Has(b, x)
  {
    if a != [] {
      assert a[0].(conn := None) == b[0].(conn := None);
      ShapeHas(a[1..], b[1..], x);
    }
  }

  /** The same bytes have been received, and those in complete chunks still are in
      complete chunks. */
  ghost predicate SameBytes(a: seq<Chunk>, b: seq<Chunk>) {
    Got(a) == Got(b) && (forall x: nat :: Has(a, x) <==> Has(b, x)) && SafeStays(a, b)
  }

  lemma {:induction false} ShapeSafe(a: seq<Chunk>, b: seq<Chunk>, x: nat)
    requires SameShape(a, b)
    ensures Safe(a, x) <==> Safe(b, x)
  {
    if a != [] {
      assert a[0].(conn := None) == b[0].(conn := None);
      ShapeSafe(a[1..], b[1..], x);
    }
  }

  lemma ShapeBytes(a: seq<Chunk>, b: seq<Chunk>, size: nat)
    requires SameShape(a, b) && Tiles(a, 0, size)
    ensures SameBytes(a, b)
  {
    ShapeTiles(a, b, 0, size);
    forall x: nat
      ensures Has(a, x) <==> Has(b, x)
      ensures Safe(a, x) <==> Safe(b, x)
    {
      ShapeHas(a, b, x);
      ShapeSafe(a, b, x);
    }
  }

  lemma ShapeLayout(size: nat, received: nat, a: seq<Chunk>, b: seq<Chunk>, disk: seq<byte>, f: seq<byte>)
    requires Layout(size, received, a, disk, f) && SameShape(a, b)
    ensures Layout(size, received, b, disk, f)
  {
    ShapeTiles(a, b, 0, size);
    forall x: nat | Has(b, x)
      ensures x < |disk| && x < |f| && disk[x] == f[x]
    {
      ShapeHas(a, b, x);
    }
  }

  lemma SameLayout(size: nat, received: nat, a: seq<Chunk>, b: seq<Chunk>, disk: seq<byte>, f: seq<byte>)
    requires Layout(size, received, a, disk, f) && Same(b, a, 0, size)
    ensures Layout(size, received, b, disk, f)
  {
  }

  lemma {:induction false} AttachedMember(cs: seq<Chunk>, c: Chunk)
    ensures c in Attached(cs) <==> c in cs && c.conn.Some?
  {
    if cs != [] {
      AttachedMember(cs[1..], c);
      assert cs == [cs[0]] + cs[1..];
    }
  }

  /** Wiring only depends on the chunks that are being fetched. */
  lemma SameWired(a: seq<Chunk>, b: seq<Chunk>, conn: ConnMap, slack: Slack)
    requires Wired(a, conn, slack) && Attached(a) == Attached(b)
    ensures Wired(b, conn, slack)
  {
    forall c | c in b && c.conn.Some?
      ensures Fits(c, conn, slack)
    {
      AttachedMember(a, c);
      AttachedMember(b, c);
    }
    forall s | s in conn && conn[s].chunk.Some?
      ensures HasChunk(b, s, conn[s].chunk.value)
    {
      assert HasChunk(a, s, conn[s].chunk.value);
      var c :| c in a && c.start == conn[s].chunk.value && c.conn == Some(s);
      AttachedMember(a, c);
      AttachedMember(b, c);
    }
  }

  /** Chunks further down the list start at or after the end of this one. */
  lemma {:induction false} LaterStarts(cs: seq<Chunk>, from: nat, to: nat, i: nat, j: nat)
    requires Tiles(cs, from, to) && i < j < |cs|
    ensures cs[i].End() <= cs[j].start
  {
    if i == 0 {
      TilesBounds(cs[1..], cs[0].End(), to, cs[j]);
    } else {
      LaterStarts(cs[1..], cs[0].End(), to, i - 1, j - 1);
    }
  }

  /** A connection fetches one chunk only. */
  lemma OneChunkEach(cs: seq<Chunk>, size: nat, conn: ConnMap, slack: Slack, i: nat, j: nat)
    requires Tiles(cs, 0, size) && Wired(cs, conn, slack)
    requires i < |cs| && j < |cs| && cs[i].conn.Some? && cs[i].conn == cs[j].conn
    ensures i == j
  {
    assert cs[i] in cs && cs[j] in cs;
    assert Fits(cs[i], conn, slack) && Fits(cs[j], conn, slack);
    if i < j {
      LaterStarts(cs, 0, size, i, j);
    } else if j < i {
      LaterStarts(cs, 0, size, j, i);
    }
  }

  lemma UpdateMember(cs: seq<Chunk>, i: nat, d: Chunk, c: Chunk)
    requires i < |cs|
    ensures c in cs[i := d] ==> c == d || exists k :: 0 <= k < |cs| && k != i && cs[k] == c
    ensures c in cs && c != cs[i] ==> c in cs[i := d]
    ensures d in cs[i := d]
  {
    var t := cs[i := d];
    if c in t && c != d {
      var k :| 0 <= k < |t| && t[k] == c;
      assert k != i && cs[k] == c;
    }
    if c in cs && c != cs[i] {
      var k :| 0 <= k < |cs| && cs[k] == c;
      assert t[k] == c;
    }
    assert t[i] == d;
  }

  /** Replace the chunk of source `s` and its connection together. Everything else
      stays wired. */
  lemma RewireOne(cs: seq<Chunk>, size: nat, conn: ConnMap, i: nat, s: Source, d: Chunk, k: Conn, before: Slack,
      after: Slack)
    requires Tiles(cs, 0, size) && Wired(cs, conn, before) && i < |cs| && s in conn
    requires cs[i].conn == Some(s) || (cs[i].conn.None? && conn[s].chunk.None?)
    requires before == after || (before.Of(s) && after.Of(s) && before.Base() == after.Base())
    requires d.start == cs[i].start
    requires d.conn == Some(s) ==> Fits(d, conn[s := k], after)
    requires d.conn == None || d.conn == Some(s)
    requires k.chunk == if d.conn.Some? then Some(d.start) else None
    requires k.chunk.Some? <==> k.Busy()
    ensures Wired(cs[i := d], conn[s := k], after)
  {
    var cs', conn' := cs[i := d], conn[s := k];
    forall c | c in cs' && c.conn.Some?
      ensures Fits(c, conn', after)
    {
      UpdateMember(cs, i, d, c);
      hide Tiles;
      if c != d {
        var j :| 0 <= j < |cs| && j != i && cs[j] == c;
        assert c in cs && Fits(c, conn, before);
        if c.conn == Some(s) {
          if cs[i].conn == Some(s) {
            OneChunkEach(cs, size, conn, before, i, j);
          }
        }
      }
    }
    forall s' | s' in conn' && conn'[s'].chunk.Some?
      ensures HasChunk(cs', s', conn'[s'].chunk.value)
    {
      if s' == s {
        UpdateMember(cs, i, d, d);
        assert d in cs' && d.start == conn'[s'].chunk.value && d.conn == Some(s');
      } else {
        assert HasChunk(cs, s', conn[s'].chunk.value);
        var c :| c in cs && c.start == conn[s'].chunk.value && c.conn == Some(s');
        UpdateMember(cs, i, d, c);
      }
    }
  }

  /** Forget an idle connection altogether. */
  lemma ForgetIdle(cs: seq<Chunk>, conn: ConnMap, s: Source, slack: Slack)
    requires Wired(cs, conn, slack) && s in conn && conn[s].chunk.None?
    ensures Wired(cs, conn - {s}, slack)
  {
    var conn' := conn - {s};
    forall c | c in cs && c.conn.Some?
      ensures Fits(c, conn', slack)
    {
      assert Fits(c, conn, slack);
    }
    forall s' | s' in conn' && conn'[s'].chunk.Some?
      ensures HasChunk(cs, s', conn'[s'].chunk.value)
    {
      assert HasChunk(cs, s', conn[s'].chunk.value);
    }
  }

  /** Change a connection's record without touching its request position. */
  lemma Retouch(cs: seq<Chunk>, conn: ConnMap, s: Source, k: Conn, slack: Slack)
    requires Wired(cs, conn, slack) && s in conn
    requires k.chunk == conn[s].chunk && k.Busy() == conn[s].Busy()
    requires k.Busy() ==>
      k.chunkStart == conn[s].chunkStart && k.chunkSize == conn[s].chunkSize && k.curr == conn[s].curr
    requires k.state.Connecting? ==> conn[s].state.Connecting?
    ensures Wired(cs, conn[s := k], slack)
  {
    var conn' := conn[s := k];
    forall c | c in cs && c.conn.Some?
      ensures Fits(c, conn', slack)
    {
      assert Fits(c, conn, slack);
    }
    forall s' | s' in conn' && conn'[s'].chunk.Some?
      ensures HasChunk(cs, s', conn'[s'].chunk.value)
    {
      assert HasChunk(cs, s', conn[s'].chunk.value);
    }
  }

  /** The chunk an attached connection fetches. */
  lemma ChunkOf(cs: seq<Chunk>, size: nat, conn: ConnMap, slack: Slack, s: Source)
    requires Tiles(cs, 0, size) && Wired(cs, conn, slack) && s in conn && conn[s].chunk.Some?
    ensures exists i :: 0 <= i < |cs| && cs[i].conn == Some(s)
  {
    assert HasChunk(cs, s, conn[s].chunk.value);
    var c :| c in cs && c.start == conn[s].chunk.value && c.conn == Some(s);
    var i :| 0 <= i < |cs| && cs[i] == c;
    assert cs[i].conn == Some(s);
  }

  // ----------------------------------------------------------- receiving, splitting

  lemma Middle(cs: seq<Chunk>, i: nat)
    requires i < |cs|
    ensures cs == cs[..i] + [cs[i]] + cs[i + 1..] && cs == cs[..i] + ([cs[i]] + cs[i + 1..])
  {
  }

  lemma MiddleParts(pre: seq<Chunk>, mid: seq<Chunk>, post: seq<Chunk>, size: nat)
    ensures var at := Span(pre, 0);
      Tiles(pre + mid + post, 0, size) <==>
      Tiles(pre, 0, at) && Tiles(mid, at, Span(mid, at)) && Tiles(post, Span(mid, at), size)
    ensures Got(pre + mid + post) == Got(pre) + Got(mid) + Got(post)
    ensures forall x: nat :: Has(pre + mid + post, x) <==> Has(pre, x) || Has(mid, x) || Has(post, x)
  {
    var at := Span(pre, 0);
    TilesConcat(pre + mid, post, 0, size);
    SpanConcat(pre, mid, 0);
    TilesConcat(pre, mid, 0, Span(mid, at));
    GotConcat(pre + mid, post);
    GotConcat(pre, mid);
    forall x: nat
      ensures Has(pre + mid + post, x) <==> Has(pre, x) || Has(mid, x) || Has(post, x)
    {
      HasConcat(pre + mid, post, x);
      HasConcat(pre, mid, x);
    }
  }

  lemma {:induction false} SpanConcat(a: seq<Chunk>, b: seq<Chunk>, from: nat)
    ensures Span(a + b, from) == Span(b, Span(a, from))
  {
    if a == [] {
      assert a + b == b;
    } else {
      assert (a + b)[1..] == a[1..] + b;
      SpanConcat(a[1..], b, from + a[0].size);
    }
  }

  lemma UpdateIsMiddle(cs: seq<Chunk>, i: nat, d: Chunk)
    requires i < |cs|
    ensures cs[i := d] == cs[..i] + [d] + cs[i + 1..]
  {
  }

  /** Exactly `n` bytes from `pos` on have been received in addition. */
  ghost predicate Gained(a: seq<Chunk>, b: seq<Chunk>, pos: nat, n: nat) {
    && Got(b) == Got(a) + n && (forall x: nat :: Has(b, x) <==> Has(a, x) || pos <= x < pos + n)
    && SafeStays(a, b)
  }

  /** A complete chunk that stays what it is, in the middle of a list. */
  lemma GrownSafe(pre: seq<Chunk>, c: Chunk, mid: seq<Chunk>, post: seq<Chunk>)
    requires c.Complete() ==> mid != [] && mid[0].start == c.start && mid[0].size == mid[0].received == c.size
    ensures SafeStays(pre + [c] + post, pre + mid + post)
  {
    forall x: nat
      ensures Safe([c], x) ==> Safe(mid, x)
    {
      SafeOfOne(c, x);
    }
    SafeMiddle(pre, [c], mid, post);
  }

  lemma GainedBytes(cs: seq<Chunk>, size: nat, i: nat, n: nat)
    requires Tiles(cs, 0, size) && i < |cs|
    ensures var t := cs[i := cs[i].(received := cs[i].received + n)];
      var pos := cs[i].start + cs[i].received;
      Got(t) == Got(cs) + n && forall x: nat :: Has(t, x) <==> Has(cs, x) || pos <= x < pos + n
  {
    var c := cs[i];
    var d := c.(received := c.received + n);
    OfOne(c, c.start, c.End());
    OfOne(d, c.start, c.End());
    hide Tiles, Got, Has, Span;
    Middle(cs, i);
    UpdateIsMiddle(cs, i, d);
    MiddleParts(cs[..i], [c], cs[i + 1..], size);
    MiddleParts(cs[..i], [d], cs[i + 1..], size);
  }

  lemma GainedSome(cs: seq<Chunk>, size: nat, t: seq<Chunk>, i: nat, n: nat)
    requires Tiles(cs, 0, size) && i < |cs| && t == cs[i := cs[i].(received := cs[i].received + n)]
    requires cs[i].received + n <= cs[i].size
    ensures Gained(cs, t, cs[i].start + cs[i].received, n)
  {
    hide Tiles, Got, Has, SafeStays;
    var c := cs[i];
    var d := c.(received := c.received + n);
    GainedBytes(cs, size, i, n);
    Middle(cs, i);
    UpdateIsMiddle(cs, i, d);
    GrownSafe(cs[..i], c, [d], cs[i + 1..]);
  }

  lemma ReceivedTiles(cs: seq<Chunk>, size: nat, i: nat, n: nat)
    requires Tiles(cs, 0, size) && i < |cs| && cs[i].received + n <= cs[i].size
    ensures Tiles(cs[i := cs[i].(received := cs[i].received + n)], 0, size)
  {
    var c := cs[i];
    var d := c.(received := c.received + n);
    var at := Span(cs[..i], 0);
    SpanOne(c, at);
    SpanOne(d, at);
    OfOne(c, at, at + c.size);
    OfOne(d, at, at + c.size);
    hide Tiles, Got, Has, Span;
    Middle(cs, i);
    UpdateIsMiddle(cs, i, d);
    MiddleParts(cs[..i], [c], cs[i + 1..], size);
    MiddleParts(cs[..i], [d], cs[i + 1..], size);
  }

  lemma SpanOne(c: Chunk, from: nat)
    ensures Span([c], from) == from + c.size
  {
    assert [c][1..] == [];
  }

  /** `n` more bytes of the file arrive for chunk `i` and are written where the
      chunk has got to. */
  lemma ReceiveLayout(size: nat, received: nat, cs: seq<Chunk>, disk: seq<byte>, f: seq<byte>, i: nat, data: seq<byte>)
    requires Layout(size, received, cs, disk, f) && i < |cs|
    requires cs[i].received + |data| <= cs[i].size
    requires forall j :: 0 <= j < |data| ==>
      cs[i].start + cs[i].received + j < |f| && data[j] == f[cs[i].start + cs[i].received + j]
    ensures Layout(size, received + |data|, cs[i := cs[i].(received := cs[i].received + |data|)],
                   WriteAt(disk, cs[i].start + cs[i].received, data), f)
  {
    hide WriteAt, Tiles, Got, Has;
    var t := cs[i := cs[i].(received := cs[i].received + |data|)];
    var pos := cs[i].start + cs[i].received;
    GainedSome(cs, size, t, i, |data|);
    ReceivedTiles(cs, size, i, |data|);
    forall x: nat | Has(t, x)
      ensures var w := WriteAt(disk, pos, data); x < |w| && x < |f| && w[x] == f[x]
    {
      WriteAtReads(disk, pos, data, x);
      if pos <= x < pos + |data| {
        assert data[x - pos] == f[pos + (x - pos)];
      }
    }
  }

  /** The list after chunk `i` gave up its last `n` bytes to a new chunk. */
  function SplitOff(cs: seq<Chunk>, i: nat, n: nat, s: Source): seq<Chunk>
    requires i < |cs| && n <= cs[i].size
  {
    var c := cs[i];
    cs[..i] + [c.(size := c.size - n), Chunk(c.End() - n, n, 0, Some(s))] + cs[i + 1..]
  }

  lemma SplitTiles(cs: seq<Chunk>, size: nat, i: nat, n: nat, s: Source)
    requires Tiles(cs, 0, size) && i < |cs| && n <= cs[i].size - cs[i].received && cs[i].received <= cs[i].size
    ensures Tiles(SplitOff(cs, i, n, s), 0, size)
    ensures Got(cs) == Got(SplitOff(cs, i, n, s)) && forall x: nat :: Has(cs, x) <==> Has(SplitOff(cs, i, n, s), x)
  {
    var c := cs[i];
    var d, e := c.(size := c.size - n), Chunk(c.End() - n, n, 0, Some(s));
    var at := Span(cs[..i], 0);
    SpanOne(c, at);
    SpanTwo(d, e, at);
    OfOne(c, at, at + c.size);
    OfTwo(d, e, at, at + c.size);
    hide Tiles, Got, Has, Span;
    Middle(cs, i);
    MiddleParts(cs[..i], [c], cs[i + 1..], size);
    MiddleParts(cs[..i], [d, e], cs[i + 1..], size);
  }

  lemma SplitBytes(cs: seq<Chunk>, size: nat, i: nat, n: nat, s: Source)
    requires Tiles(cs, 0, size) && i < |cs| && n <= cs[i].size - cs[i].received && cs[i].received <= cs[i].size
    ensures Tiles(SplitOff(cs, i, n, s), 0, size) && SameBytes(cs, SplitOff(cs, i, n, s))
  {
    var c := cs[i];
    SplitTiles(cs, size, i, n, s);
    Middle(cs, i);
    GrownSafe(cs[..i], c, [c.(size := c.size - n), Chunk(c.End() - n, n, 0, Some(s))], cs[i + 1..]);
    hide Tiles, Got, Has, SafeStays;
  }

  lemma SpanTwo(c: Chunk, d: Chunk, from: nat)
    ensures Span([c, d], from) == from + c.size + d.size
  {
    assert [c, d][1..] == [d];
    SpanOne(d, from + c.size);
  }

  lemma SplitLayout(size: nat, received: nat, cs: seq<Chunk>, disk: seq<byte>, f: seq<byte>, i: nat, n: nat, s: Source)
    requires Layout(size, received, cs, disk, f) && i < |cs| && n <= cs[i].size - cs[i].received &&
        cs[i].received <= cs[i].size
    ensures Layout(size, received, SplitOff(cs, i, n, s), disk, f)
    ensures SameBytes(cs, SplitOff(cs, i, n, s))
  {
    hide Tiles, Got, Has, SplitOff;
    SplitBytes(cs, size, i, n, s);
  }

  lemma SplitMember(cs: seq<Chunk>, i: nat, n: nat, s: Source, c: Chunk)
    requires i < |cs| && n <= cs[i].size
    ensures var t := SplitOff(cs, i, n, s);
      && (c in t ==> c == t[i] || c == t[i + 1] || c in cs)
      && (c in cs && c != cs[i] ==> c in t)
      && t[i] == cs[i].(size := cs[i].size - n) && t[i] in t
      && t[i + 1] == Chunk(cs[i].End() - n, n, 0, Some(s)) && t[i + 1] in t
      && |t| == |cs| + 1
  {
    var t := SplitOff(cs, i, n, s);
    if c in t {
      var k :| 0 <= k < |t| && t[k] == c;
      if k < i {
        assert cs[k] == c;
      } else if k > i + 1 {
        assert cs[k - 1] == c;
      }
    }
    if c in cs && c != cs[i] {
      var k :| 0 <= k < |cs| && cs[k] == c;
      assert if k < i then t[k] == c else t[k + 1] == c;
    }
  }

  /** A chunk that is being fetched is split for an unused connection; the old
      request still reaches to the end of what is left of its chunk. */
  lemma SplitWired(cs: seq<Chunk>, conn: ConnMap, i: nat, n: nat, s: Source)
    requires Wired(cs, conn, Tight) && i < |cs| && s in conn && conn[s].chunk.None?
    requires 0 < n < cs[i].size - cs[i].received
    ensures var start := cs[i].End() - n;
      Wired(SplitOff(cs, i, n, s), conn[s := conn[s].Started(start, n).(chunk := Some(start))], Tight)
  {
    var start := cs[i].End() - n;
    var t := SplitOff(cs, i, n, s);
    var conn' := conn[s := conn[s].Started(start, n).(chunk := Some(start))];
    assert cs[i] in cs;
    forall c | c in t && c.conn.Some?
      ensures Fits(c, conn', Tight)
    {
      SplitMember(cs, i, n, s, c);
      if c == t[i] {
        assert Fits(cs[i], conn, Tight);
      } else if c != t[i + 1] {
        assert Fits(c, conn, Tight);
      }
    }
    forall s' | s' in conn' && conn'[s'].chunk.Some?
      ensures HasChunk(t, s', conn'[s'].chunk.value)
    {
      if s' == s {
        SplitMember(cs, i, n, s, t[i + 1]);
      } else {
        assert HasChunk(cs, s', conn[s'].chunk.value);
        var c :| c in cs && c.start == conn[s'].chunk.value && c.conn == Some(s');
        SplitMember(cs, i, n, s, c);
        if c == cs[i] {
          assert t[i] in t && t[i].start == c.start && t[i].conn == c.conn;
        }
      }
    }
  }

  // ----------------------------------------------------------- connection list

  lemma WithoutOrdered(conns: seq<Source>, conn: ConnMap, k: nat)
    requires Listed(conns, conn) && k < |conns| && Ordered(conns, conn)
    ensures Ordered(Without(conns, k), conn - {conns[k]})
  {
    WithoutSorted(conns, KeyOf(conn), RankCmp, k);
    WithoutListed(conns, conn, k);
    hide RankOf, RankCmp, Without;
    SortedUnder(Without(conns, k), KeyOf(conn), KeyOf(conn - {conns[k]}), RankCmp);
  }

  /** Same records as far as the order can see: same order. */
  lemma OrderedUnder(conns: seq<Source>, a: ConnMap, b: ConnMap)
    requires Ordered(conns, a)
    requires forall s :: s in conns ==> s in a && s in b && RankOf(a[s]) == RankOf(b[s])
    ensures Ordered(conns, b)
  {
    forall i, j | 0 <= i < j < |conns|
      ensures RankCmp(KeyOf(b)(conns[i]), KeyOf(b)(conns[j])) <= 0
    {
      assert RankCmp(KeyOf(a)(conns[i]), KeyOf(a)(conns[j])) <= 0;
    }
  }

  lemma InsertOrdered(conns: seq<Source>, conn: ConnMap, s: Source)
    requires Ordered(conns, conn)
    ensures Ordered(Insert(conns, KeyOf(conn), RankCmp, s), conn)
  {
    RankIsComparison();
    InsertKeepsSorted(conns, KeyOf(conn), RankCmp, s);
  }

  /** `list_sort` keeps the list complete and puts it in order. */
  lemma SortListed(conns: seq<Source>, conn: ConnMap)
    requires Listed(conns, conn)
    ensures Listed(StableSort(conns, KeyOf(conn), RankCmp), conn)
    ensures Ordered(StableSort(conns, KeyOf(conn), RankCmp), conn)
  {
    RankIsComparison();
    StableSortPermutes(conns, KeyOf(conn), RankCmp);
    StableSortSorts(conns, KeyOf(conn), RankCmp);
    MultisetDistinct(conns);
    DistinctMultiset(StableSort(conns, KeyOf(conn), RankCmp));
    var t := StableSort(conns, KeyOf(conn), RankCmp);
    forall x
      ensures x in t <==> x in conn
    {
      assert x in t <==> x in multiset(t);
    }
  }

  /** In an ordered list no unused connection comes after a used one, so stopping
      at the first used one skips none. */
  lemma UsedComeLast(conns: seq<Source>, conn: ConnMap, i: nat, j: nat)
    requires Listed(conns, conn) && Ordered(conns, conn) && i < j < |conns|
    requires conns[i] in conn && conn[conns[i]].chunk.Some?
    ensures conns[j] in conn && conn[conns[j]].chunk.Some?
  {
    assert conns[j] in conns;
    assert RankCmp(KeyOf(conn)(conns[i]), KeyOf(conn)(conns[j])) <= 0;
  }

  // ------------------------------------------------- counting busy connections

  /** A connection that was idle is started. */
  lemma CountStart(conn: ConnMap, s: Source, k: Conn)
    requires s in conn && !conn[s].Busy() && k.state.Connecting?
    ensures |InState(conn[s := k], Connecting)| == |InState(conn, Connecting)| + 1
    ensures InState(conn[s := k], Transferring) == InState(conn, Transferring)
  {
    assert InState(conn[s := k], Connecting) == InState(conn, Connecting) + {s};
  }

  /** An idle connection is dropped. */
  lemma CountForget(conn: ConnMap, s: Source)
    requires s in conn && !conn[s].Busy()
    ensures InState(conn - {s}, Connecting) == InState(conn, Connecting)
    ensures InState(conn - {s}, Transferring) == InState(conn, Transferring)
  {
  }

  /** A busy connection is dropped: it leaves one of the two counts. */
  lemma CountDrop(conn: ConnMap, s: Source)
    requires s in conn && conn[s].Busy()
    ensures |InState(conn - {s}, Connecting)| + |InState(conn - {s}, Transferring)| + 1
         == |InState(conn, Connecting)| + |InState(conn, Transferring)|
    ensures |InState(conn - {s}, Connecting)| <= |InState(conn, Connecting)|
    ensures |InState(conn - {s}, Transferring)| <= |InState(conn, Transferring)|
  {
    if conn[s].state.Connecting? {
      assert InState(conn - {s}, Connecting) == InState(conn, Connecting) - {s};
      assert InState(conn - {s}, Transferring) == InState(conn, Transferring);
    } else {
      assert InState(conn - {s}, Connecting) == InState(conn, Connecting);
      assert InState(conn - {s}, Transferring) == InState(conn, Transferring) - {s};
    }
  }

  // --------------------------------------------------- the limit on transfers

  /** Fewer connections transfer than the limit allows (or none does). */
  ghost predicate Few(conn: ConnMap, max: nat) {
    InState(conn, Transferring) == {} || |InState(conn, Transferring)| < max
  }

  lemma FewStays(a: ConnMap, b: ConnMap, max: nat)
    requires Few(a, max) && |InState(b, Transferring)| <= |InState(a, Transferring)|
    ensures Few(b, max)
  {
  }

  /** Dropping a connection, or letting it go idle, frees a slot if anything. */
  lemma FewReleased(conn: ConnMap, s: Source, k: Conn)
    requires s in conn && !k.Busy()
    ensures |InState(conn[s := k], Transferring)| <= |InState(conn, Transferring)|
    ensures |InState(conn - {s}, Transferring)| <= |InState(conn, Transferring)|
  {
    assert InState(conn[s := k], Transferring) == InState(conn, Transferring) - {s};
    assert InState(conn - {s}, Transferring) == InState(conn, Transferring) - {s};
  }

  lemma NoneTransferring(cs: seq<Chunk>, conn: ConnMap, slack: Slack, max: nat)
    requires Wired(cs, conn, slack) && NoneAttached(conn)
    ensures InState(conn, Transferring) == {} && Few(conn, max)
  {
  }

  // ------------------------------------------------------------ counting ahead

  /** A transferring connection has read `n` bytes more. */
  lemma ReadAhead(cs: seq<Chunk>, conn: ConnMap, s: Source, n: nat, base: Slack)
    requires Wired(cs, conn, base) && (base.Tight? || base.Loose?) && s in conn && conn[s].state.Transferring?
    ensures Wired(cs, conn[s := conn[s].(curr := conn[s].curr + n)], Ahead(s, n, base.Loose?))
  {
    var m := conn[s := conn[s].(curr := conn[s].curr + n)];
    forall c | c in cs && c.conn.Some?
      ensures Fits(c, m, Ahead(s, n, base.Loose?))
    {
      assert Fits(c, conn, base);
    }
    forall t | t in m && m[t].chunk.Some?
      ensures HasChunk(cs, t, m[t].chunk.value)
    {
      assert HasChunk(cs, t, conn[t].chunk.value);
    }
  }

  /** A request that has just been answered starts transferring. */
  lemma CountAccept(conn: ConnMap, s: Source, k: Conn)
    requires s in conn && conn[s].state.Connecting? && k.state.Transferring?
    ensures |InState(conn[s := k], Transferring)| == |InState(conn, Transferring)| + 1
    ensures conn[s := k][s] == k
  {
    assert InState(conn[s := k], Transferring) == InState(conn, Transferring) + {s};
  }
}
