/** The download engine of gift-ares/lib/as_download.c: one file fetched in
    chunks from many sources at once. */
module Downloads {
  import opened Wrappers
  import opened Bytes
  import opened Files
  import opened Ordering
  import opened Chunks
  import opened Connections
  import opened Engine
  import opened Listing
  import opened SavedState
  import opened DownloadStates

  /** AS_DOWNLOAD_MIN_CHUNK_SIZE */
  const MinChunkSize: nat := 128 * 1024

  /** AS_DOWNLOAD_SOURCE_MAX_FAIL */
  const SourceMaxFail: nat := 2

  /** What the outside world does during one call: the time, which sources can be
      reached, whether file operations succeed, and the bytes that stand for the
      hash and the sources in the saved state. */
  datatype Env = Env(now: nat, connects: set<Source>, writeOk: bool, saveOk: bool, verifyOk: bool, tlvs: seq<byte>)

  /** What can happen to a download: data on a transfer, an answer to a request
      with the part of the body that came along, a request lost or put off, a new
      source, the maintenance timer, and the calls of the user and of the download
      manager. */
  datatype Event =
    | Data(s: Source, data: seq<byte>)
    | Answer(s: Source, range: Option<nat>, data: seq<byte>)
    | Lost(s: Source)
    | Later(s: Source, retry: nat)
    | Found(s: Source)
    | Tick
    | UserPauses
    | UserResumes
    | SlotTaken
    | UserCancels

  /** What a record behind the media part was written from. */
  datatype Saved = Saved(cs: seq<Chunk>, paused: bool, tlvs: seq<byte>)

  /** Connections not in use all come before those in use, from position `at` on. */
  ghost predicate UsedLast(conns: seq<Source>, conn: ConnMap, at: nat) {
    forall i, j :: at <= i < j < |conns| && conns[i] in conn && conns[j] in conn ==>
      (conn[conns[i]].chunk.Some? ==> conn[conns[j]].chunk.Some?)
  }

  lemma OrderedUsedLast(conns: seq<Source>, conn: ConnMap)
    requires Listed(conns, conn) && Ordered(conns, conn)
    ensures UsedLast(conns, conn, 0)
  {
    forall i, j | 0 <= i < j < |conns| && conns[i] in conn && conns[j] in conn && conn[conns[i]].chunk.Some?
      ensures conn[conns[j]].chunk.Some?
    {
      UsedComeLast(conns, conn, i, j);
    }
  }

  function IndexOf(xs: seq<Source>, s: Source): (k: nat)
    requires s in xs
    ensures k < |xs| && xs[k] == s
  {
    if xs[0] == s then 0 else 1 + IndexOf(xs[1..], s)
  }

  /** Every chunk detached from its connection. */
  function DetachAll(cs: seq<Chunk>): seq<Chunk> {
    seq(|cs|, i requires 0 <= i < |cs| => cs[i].(conn := None))
  }

  lemma DetachedIs(a: seq<Chunk>, b: seq<Chunk>)
    requires SameShape(a, b) && forall c :: c in b ==> c.Idle()
    ensures b == DetachAll(a)
  {
    forall i | 0 <= i < |a|
      ensures b[i] == DetachAll(a)[i]
    {
      assert a[i].(conn := None) == b[i].(conn := None) && b[i] in b;
    }
  }

  lemma AttachedBothWays(cs: seq<Chunk>, conn: ConnMap, slack: Slack)
    requires Wired(cs, conn, slack)
    ensures forall c :: c in cs && c.conn.Some? ==> c.conn.value in conn && conn[c.conn.value].chunk == Some(c.start)
  {
    forall c | c in cs && c.conn.Some?
      ensures c.conn.value in conn && conn[c.conn.value].chunk == Some(c.start)
    {
      assert Fits(c, conn, slack);
    }
  }

  /** With nothing attached the wiring holds whatever went before. */
  lemma NothingAttached(cs: seq<Chunk>, conn: ConnMap, slack: Slack)
    requires Wired(cs, conn, slack) && NoneAttached(conn)
    ensures Wired(cs, conn, Tight) && forall c :: c in cs ==> c.Idle()
  {
    AttachedBothWays(cs, conn, slack);
  }

  lemma NotFetching(cs: seq<Chunk>, conn: ConnMap, s: Source, slack: Slack)
    requires Wired(cs, conn, slack) && s in conn && conn[s].chunk.None?
    ensures forall c :: c in cs ==> c.conn != Some(s)
  {
    AttachedBothWays(cs, conn, slack);
  }

  lemma AbsentFrom(conns: seq<Source>, conn: ConnMap, s: Source)
    requires Listed(conns, conn - {s})
    ensures forall t :: t in conns ==> t in conn && t in conn - {s} && (conn - {s})[t] == conn[t]
  {
  }

  /** The records once the first `i` connections of `l` are stopped. */
  ghost function StoppedUpTo(m: ConnMap, l: seq<Source>, i: nat, now: nat): ConnMap
    requires i <= |l|
  {
    map s | s in m :: if s in l[..i] then m[s].Cancel(now).(chunk := None) else m[s]
  }

  /** The records `stop_all_connections` leaves behind. */
  function Stopped(m: ConnMap, now: nat): ConnMap {
    map s | s in m :: m[s].Cancel(now).(chunk := None)
  }

  lemma StopNext(m: ConnMap, p: ConnMap, l: seq<Source>, i: nat, now: nat)
    requires i < |l| && Listed(l, p) && p == StoppedUpTo(m, l, i, now)
    ensures l[i] in p
    ensures p[l[i] := p[l[i]].Cancel(now).(chunk := None)] == StoppedUpTo(m, l, i + 1, now)
  {
    assert l[i] in l;
    assert l[..i + 1] == l[..i] + [l[i]];
  }

  lemma StoppedAll(m: ConnMap, l: seq<Source>, now: nat)
    requires Listed(l, StoppedUpTo(m, l, |l|, now))
    ensures StoppedUpTo(m, l, |l|, now) == Stopped(m, now) && NoneAttached(Stopped(m, now))
  {
    assert l[..|l|] == l;
  }

  lemma LayoutTiles(size: nat, received: nat, cs: seq<Chunk>, disk: seq<byte>, f: seq<byte>)
    requires Layout(size, received, cs, disk, f)
    ensures Tiles(cs, 0, size)
  {
  }

  lemma ShapeTrans(a: seq<Chunk>, b: seq<Chunk>, c: seq<Chunk>)
    requires SameShape(a, b) && SameShape(b, c)
    ensures SameShape(a, c)
  {
  }

  class Download {
    const maxSources: nat
    /** The file as it is at the sources, and the hash it is known by. */
    const file: seq<byte>
    const hashOf: seq<byte> -> nat
    const hash: nat
    var size: nat
    var received: nat
    var chunks: seq<Chunk>
    var conns: seq<Source>
    var conn: ConnMap
    var disk: seq<byte>
    var state: DownloadState

    /** The invariant, up to `slack` inside a callback. */
    ghost predicate Sound(slack: Slack)
      reads this`size, this`received, this`chunks, this`conns, this`conn, this`disk
    {
      && Layout(size, received, chunks, disk, file)
      && 0 < size < U32
      && chunks != []
      && Wired(chunks, conn, slack)
      && Listed(conns, conn)
      && Blocky(disk, size)
      && hash == hashOf(file)
    }

    /** What holds between events. An active download still lacks a byte, so it has
        not missed its end. With `Loose` a chunk may be stuck: complete and still
        attached. */
    ghost predicate Valid(base: Slack := Tight)
      reads this
    {
      && (base.Tight? || base.Loose?) && Sound(base)
      && Ordered(conns, conn)
      && Few(conn, maxSources)
      && (state != Active ==> NoneAttached(conn))
      && state != New
      && (state == Finished ==> disk == file)
      && (state == Active ==> Lacks(chunks, size) || AnyStuck(chunks))
    }

    lemma SoundLevels()
      ensures Sound(Tight) <==> Sound(Loose) && !AnyStuck(chunks)
    {
      LooseOrTight(chunks, conn);
    }

    /** `Loose` allows stuck chunks and nothing else, and only while the download is
        active. */
    lemma ValidLevels()
      ensures Valid() <==> Valid(Loose) && !AnyStuck(chunks)
      ensures Valid(Loose) && state != Active ==> Valid()
    {
      SoundLevels();
      if Valid(Loose) && state != Active {
        AttachedBothWays(chunks, conn, Loose);
      }
    }

    // ------------------------------------------------------- list utilities

    /** `conn_reinsert` and the sorted insertion of a new source. */
    method InsertConn(s: Source)
      requires s in conn && Listed(conns, conn - {s}) && Ordered(conns, conn)
      modifies this`conns
      ensures conns == Insert(old(conns), KeyOf(conn), RankCmp, s)
      ensures Listed(conns, conn) && Ordered(conns, conn)
    {
      InsertListed(conns, conn, KeyOf(conn), RankCmp, s);
      InsertOrdered(conns, conn, s);
      conns := Insert(conns, KeyOf(conn), RankCmp, s);
    }

    /** The sort at the end of a change to many connections. */
    method SortConns()
      requires Listed(conns, conn)
      modifies this`conns
      ensures conns == StableSort(old(conns), KeyOf(conn), RankCmp)
      ensures Listed(conns, conn) && Ordered(conns, conn)
    {
      SortListed(conns, conn);
      conns := StableSort(conns, KeyOf(conn), RankCmp);
    }

    /** The chunk `conn->udata2` points to. */
    method FindChunk(s: Source) returns (i: nat)
      requires exists k :: 0 <= k < |chunks| && chunks[k].conn == Some(s)
      ensures i < |chunks| && chunks[i].conn == Some(s)
    {
      i := 0;
      while chunks[i].conn != Some(s)
        invariant i < |chunks| && exists k :: i <= k < |chunks| && chunks[k].conn == Some(s)
        decreases |chunks| - i
      {
        i := i + 1;
      }
    }

    // -------------------------------------------------- stop_all_connections

    /** Cancel connection `s` and let go of its chunk. */
    method StopOne(s: Source, now: nat, ghost slack: Slack)
      requires Tiles(chunks, 0, size) && Wired(chunks, conn, slack) && s in conn
      modifies this`chunks, this`conn
      ensures Wired(chunks, conn, slack) && SameShape(old(chunks), chunks)
      ensures conn == old(conn)[s := old(conn)[s].Cancel(now).(chunk := None)]
    {
      var k := conn[s].Cancel(now);
      if conn[s].chunk.Some? {
        ChunkOf(chunks, size, conn, slack, s);
        var i := FindChunk(s);
        var d := chunks[i].(conn := None);
        RewireOne(chunks, size, conn, i, s, d, k.(chunk := None), slack, slack);
        chunks := chunks[i := d];
      } else {
        Retouch(chunks, conn, s, k, slack);
      }
      conn := conn[s := k.(chunk := None)];
    }

    method StopAll(now: nat, ghost slack: Slack)
      requires Sound(slack)
      modifies this`chunks, this`conn, this`conns
      ensures Sound(Tight) && Ordered(conns, conn) && NoneAttached(conn)
      ensures conn == Stopped(old(conn), now)
      ensures SameShape(old(chunks), chunks) && forall c :: c in chunks ==> c.Idle()
      ensures conns == StableSort(old(conns), KeyOf(conn), RankCmp)
    {
      hide *;
      var l := conns;
      SoundParts(slack);
      for i := 0 to |l|
        invariant conns == l && Listed(conns, conn)
        invariant Layout(size, received, chunks, disk, file) && Wired(chunks, conn, slack)
        invariant SameShape(old(chunks), chunks)
        invariant conn == StoppedUpTo(old(conn), l, i, now)
      {
        var s := l[i];
        ghost var before, m := chunks, conn;
        StopNext(old(conn), conn, l, i, now);
        LayoutTiles(size, received, chunks, disk, file);
        StopOne(s, now, slack);
        ShapeLayout(size, received, before, chunks, disk, file);
        ShapeTrans(old(chunks), before, chunks);
        SameKeysListed(l, m, conn);
      }
      StoppedAll(old(conn), l, now);
      NothingAttached(chunks, conn, slack);
      SortConns();
      SoundFromParts(Tight, old(chunks));
    }

    lemma SoundParts(slack: Slack)
      requires Sound(slack)
      ensures Layout(size, received, chunks, disk, file) && 0 < size < U32 && chunks != []
      ensures Wired(chunks, conn, slack) && Listed(conns, conn) && Blocky(disk, size) && hash == hashOf(file)
      ensures SameShape(chunks, chunks) && StoppedUpTo(conn, conns, 0, 0) == conn
      ensures forall now :: StoppedUpTo(conn, conns, 0, now) == conn
    {
    }

    lemma SoundFromParts(slack: Slack, before: seq<Chunk>)
      requires Layout(size, received, chunks, disk, file) && 0 < size < U32
      requires Wired(chunks, conn, slack) && Listed(conns, conn) && Blocky(disk, size) && hash == hashOf(file)
      requires before != [] && SameShape(before, chunks)
      ensures Sound(slack)
    {
    }

    // ----------------------------------------------------- disassociate_conn

    /** Take the connection out of the list, keeping the order of the others. */
    method Unlist(s: Source)
      requires Listed(conns, conn) && Ordered(conns, conn) && s in conn
      modifies this`conns
      ensures s in old(conns) && conns == Without(old(conns), IndexOf(old(conns), s))
      ensures Listed(conns, conn - {s}) && Ordered(conns, conn - {s})
    {
      ghost var k := IndexOf(conns, s);
      WithoutListed(conns, conn, k);
      WithoutOrdered(conns, conn, k);
      conns := Without(conns, IndexOf(conns, s));
    }

    /** Let go of the chunk of `s`. `k` is the connection record as the code that
        ended the request left it. A source that failed too often is forgotten,
        any other goes to its new place in the list. */
    method Disassociate(s: Source, k: Conn, ghost slack: Slack) returns (kept: bool)
      requires Sound(slack) && Ordered(conns, conn)
      requires slack.Of(s)
      requires s in conn && conn[s].chunk.Some? && !k.Busy()
      modifies this`chunks, this`conn, this`conns
      ensures Sound(slack.Base()) && Ordered(conns, conn)
      ensures SameShape(old(chunks), chunks) && (AnyStuck(chunks) <==> AnyStuckBut(old(chunks), s))
      ensures kept <==> k.failCount < SourceMaxFail
      ensures conn == if kept then old(conn)[s := k.(chunk := None)] else old(conn) - {s}
      ensures forall c :: c in chunks ==> c.conn != Some(s)
    {
      kept := Release(s, k, slack, k.failCount >= SourceMaxFail);
    }

    /** Detach chunk and connection from each other. */
    method Detach(s: Source, k: Conn, ghost slack: Slack) returns (i: nat)
      requires Layout(size, received, chunks, disk, file) && Wired(chunks, conn, slack)
      requires slack.Of(s)
      requires s in conn && conn[s].chunk.Some? && !k.Busy()
      modifies this`chunks, this`conn
      ensures Layout(size, received, chunks, disk, file) && Wired(chunks, conn, slack.Base())
      ensures SameShape(old(chunks), chunks) && (AnyStuck(chunks) <==> AnyStuckBut(old(chunks), s))
      ensures i < |old(chunks)| && old(chunks)[i].conn == Some(s)
      ensures chunks == old(chunks)[i := old(chunks)[i].(conn := None)]
      ensures conn == old(conn)[s := k.(chunk := None)]
      ensures forall c :: c in chunks ==> c.conn != Some(s)
    {
      hide Tiles, Faithful, Got;
      ChunkOf(chunks, size, conn, slack, s);
      i := FindChunk(s);
      ghost var before := chunks;
      var d := chunks[i].(conn := None);
      RewireOne(chunks, size, conn, i, s, d, k.(chunk := None), slack, slack.Base());
      chunks := chunks[i := d];
      conn := conn[s := k.(chunk := None)];
      ShapeLayout(size, received, before, chunks, disk, file);
      NotFetching(chunks, conn, s, slack.Base());
      StuckWithout(before, i, s);
    }

    method Release(s: Source, k: Conn, ghost slack: Slack, forget: bool) returns (kept: bool)
      requires Sound(slack) && Ordered(conns, conn)
      requires slack.Of(s)
      requires s in conn && conn[s].chunk.Some? && !k.Busy()
      modifies this`chunks, this`conn, this`conns
      ensures Sound(slack.Base()) && Ordered(conns, conn)
      ensures SameShape(old(chunks), chunks) && (AnyStuck(chunks) <==> AnyStuckBut(old(chunks), s))
      ensures kept == !forget
      ensures conn == if kept then old(conn)[s := k.(chunk := None)] else old(conn) - {s}
      ensures forall c :: c in chunks ==> c.conn != Some(s)
    {
      hide Layout, Wired, Ordered, Listed, IndexOf;
      ghost var m := conn;
      Unlist(s);
      var _ := Detach(s, k, slack);
      assert conn - {s} == m - {s};
      if forget {
        ForgetIdle(chunks, conn, s, slack.Base());
        conn := conn - {s};
        kept := false;
      } else {
        AbsentFrom(conns, conn, s);
        OrderedUnder(conns, m - {s}, conn);
        InsertConn(s);
        kept := true;
      }
    }

    // ----------------------------------------------- verify and consolidate

    /** `verify_chunks`. */
    method VerifyChunks() returns (ok: bool)
      ensures ok <==>
        chunks != [] && Tiles(chunks, chunks[0].start, size) && forall c :: c in chunks && c.Complete() ==> c.Idle()
    {
      if chunks == [] {
        return false;
      }
      var i := 0;
      assert chunks[0..] == chunks;
      while i < |chunks|
        invariant i <= |chunks|
        invariant Tiles(chunks, chunks[0].start, size) <==>
          Tiles(chunks[i..], if i < |chunks| then chunks[i].start else size, size)
        invariant forall j :: 0 <= j < i && chunks[j].Complete() ==> chunks[j].Idle()
      {
        var c := chunks[i];
        assert chunks[i..][0] == c && chunks[i..][1..] == chunks[i + 1..];
        if c.received > c.size {
          return false;
        }
        if c.Complete() && c.conn.Some? {
          assert c in chunks;
          return false;
        }
        if i + 1 < |chunks| {
          if c.End() != chunks[i + 1].start {
            assert chunks[i + 1..][0] == chunks[i + 1];
            return false;
          }
        } else if c.End() != size {
          return false;
        }
        i := i + 1;
      }
      ok := true;
    }

    /** One round of `consolidate_chunks`: split the chunk at `link` if it is half
        received, then merge with the chunk before if possible. */
    method ConsolidateOne(link0: nat) returns (link: nat)
      requires link0 < |chunks| && chunks[link0].received <= chunks[link0].size
      modifies this`chunks
      ensures link <= |chunks|
      ensures chunks[..link] == Step(old(chunks)[..link0], old(chunks)[link0])
      ensures chunks[link..] == old(chunks)[link0 + 1..]
    {
      hide Mergeable;
      link := link0;
      var c := chunks[link];
      ghost var done, rest := chunks[..link], chunks[link + 1..];
      if c.Idle() && c.received > 0 && c.received < c.size {
        chunks := chunks[..link] + [FirstHalf(c), SecondHalf(c)] + chunks[link + 1..];
        link := link + 1;
        assert chunks[..link] == done + [FirstHalf(c)];
      }
      assert chunks[link + 1..] == rest;
      if link > 0 && Mergeable(chunks[link - 1], chunks[link]) {
        chunks := chunks[..link - 1] + [Merged(chunks[link - 1], chunks[link])] + chunks[link + 1..];
        link := link - 1;
      }
      link := link + 1;
    }

    /** `consolidate_chunks`, chunk by chunk in place. */
    method ConsolidateChunks()
      requires forall c :: c in chunks ==> c.received <= c.size
      modifies this`chunks
      ensures chunks == Consolidate(old(chunks))
    {
      hide *;
      var link: nat := 0;
      ghost var goal := Consolidate(chunks);
      SweepIsConsolidate(chunks);
      while link < |chunks|
        invariant link <= |chunks| && Sweep(chunks[..link], chunks[link..]) == goal
        invariant forall c :: c in chunks[link..] ==> c.received <= c.size
        decreases |chunks| - link
      {
        SweepOne(chunks, link);
        link := ConsolidateOne(link);
      }
      assert chunks[..link] == chunks && chunks[link..] == [];
      SweepNothing(chunks);
    }

    // ------------------------------------------------------------ start_chunks

    /** `active_conns_from_list`: transferring and connecting connections. */
    method CountConns() returns (active: nat, connecting: nat)
      requires Listed(conns, conn)
      ensures active == |InState(conn, Transferring)| && connecting == |InState(conn, Connecting)|
    {
      active, connecting := 0, 0;
      CountPrefixStarts(conns, conn);
      for i := 0 to |conns|
        invariant active == |InPrefix(conns, conn, i, Transferring)|
        invariant connecting == |InPrefix(conns, conn, i, Connecting)|
      {
        CountPrefixNext(conns, conn, i);
        assert conns[i] in conns;
        if conn[conns[i]].state == Transferring {
          active := active + 1;
        }
        if conn[conns[i]].state == Connecting {
          connecting := connecting + 1;
        }
      }
      CountPrefixAll(conns, conn);
    }

    /** Give idle chunk `i` to unused connection `s`. */
    method Attach(i: nat, s: Source)
      requires Sound(Tight) && i < |chunks| && s in conn
      requires chunks[i].Idle() && !chunks[i].Complete() && conn[s].chunk.None?
      modifies this`chunks, this`conn
      ensures Sound(Tight)
      ensures chunks == old(chunks)[i := old(chunks)[i].(conn := Some(s))] && SameShape(old(chunks), chunks)
      ensures var c := chunks[i];
        conn == old(conn)[s := old(conn)[s].Started(c.start + c.received, c.size - c.received).(chunk := Some(c.start))]
      ensures s in conn && conn == old(conn)[s := conn[s]] && conn[s].chunk.Some?
      ensures conn[s] == old(conn)[s].Started(conn[s].chunkStart, conn[s].chunkSize).(chunk := conn[s].chunk)
      ensures |InState(conn, Connecting)| == |InState(old(conn), Connecting)| + 1
      ensures InState(conn, Transferring) == InState(old(conn), Transferring)
    {
      hide Tiles, Faithful, Got, InState, Blocky;
      var c := chunks[i];
      assert c in chunks;
      TilesBounds(chunks, 0, size, c);
      var d := c.(conn := Some(s));
      var k := conn[s].Started(c.start + c.received, c.size - c.received).(chunk := Some(c.start));
      CountStart(conn, s, k);
      RewireOne(chunks, size, conn, i, s, d, k, Tight, Tight);
      ghost var before := chunks;
      chunks := chunks[i := d];
      conn := conn[s := k];
      ShapeLayout(size, received, before, chunks, disk, file);
      SameKeysListed(conns, old(conn), conn);
    }

    /** The connection at `k` failed to start: drop the source. */
    method DropAt(k: nat)
      requires Sound(Tight) && k < |conns|
      requires conns[k] in conn ==> conn[conns[k]].chunk.None?
      modifies this`conns, this`conn
      ensures Sound(Tight)
      ensures conns == Without(old(conns), k) && conn == old(conn) - {old(conns)[k]}
      ensures InState(conn, Connecting) == InState(old(conn), Connecting)
      ensures InState(conn, Transferring) == InState(old(conn), Transferring)
    {
      hide Layout, Blocky, Without;
      var s := conns[k];
      assert s in conns;
      CountForget(conn, s);
      ForgetIdle(chunks, conn, s, Tight);
      WithoutListed(conns, conn, k);
      conns := Without(conns, k);
      conn := conn - {s};
    }

    /** Find a connection for idle chunk `i`, from position `li0` of the list on. */
    method GiveChunk(i: nat, li0: nat, now: nat, connects: set<Source>, ghost a: ConnMap) returns (li: nat, given: bool)
      requires Sound(Tight) && i < |chunks| && chunks[i].Idle() && !chunks[i].Complete()
      requires li0 <= |conns| && UsedLast(conns, conn, li0) && Tried(conns, conn, li0, now) &&
          InTurn(a, conns, conn, li0, now)
      modifies this`chunks, this`conns, this`conn
      ensures Sound(Tight) && SameShape(old(chunks), chunks)
      ensures li <= |conns| && UsedLast(conns, conn, li) && Tried(conns, conn, li, now) &&
          InTurn(a, conns, conn, li, now)
      ensures if given then exists s :: chunks == old(chunks)[i := old(chunks)[i].(conn := Some(s))]
              else li == |conns| && chunks == old(chunks)
      ensures |InState(conn, Connecting)| == |InState(old(conn), Connecting)| + if given then 1 else 0
      ensures InState(conn, Transferring) == InState(old(conn), Transferring)
      ensures conn.Keys <= old(conn).Keys && old(conn).Keys * connects <= conn.Keys && OnlyStarted(old(conn), conn, now)
    {
      hide *;
      li, given := li0, false;
      SameShapeRefl(chunks);
      NoneStarted(conn, now);
      while li < |conns| && !given
        invariant Sound(Tight) && li <= |conns|
        invariant UsedLast(conns, conn, li) && Tried(conns, conn, li, now) && InTurn(a, conns, conn, li, now)
        invariant SameShape(old(chunks), chunks)
        invariant given ==> exists s :: chunks == old(chunks)[i := old(chunks)[i].(conn := Some(s))]
        invariant !given ==> chunks == old(chunks)
        invariant |InState(conn, Connecting)| == |InState(old(conn), Connecting)| + if given then 1 else 0
        invariant InState(conn, Transferring) == InState(old(conn), Transferring)
        invariant conn.Keys <= old(conn).Keys && old(conn).Keys * connects <= conn.Keys &&
            OnlyStarted(old(conn), conn, now)
        decreases |conns| - li, !given
      {
        var s := conns[li];
        ghost var l, m := conns, conn;
        SoundListed(Tight);
        ListedAt(conns, conn, li);
        if conn[s].chunk.None? && conn[s].Eligible(now) {
          if s in connects {
            Attach(i, s);
            StartedOne(old(conn), m, conn, s, now);
            UsedLastStep(l, m, conn, li, s);
            TriedStep(l, m, conn, li, s, now);
            TurnStep(a, l, m, conn, li, now);
            li := li + 1;
            given := true;
          } else {
            DropAt(li);
            StartedDrop(old(conn), m, s, now);
            UsedLastDrop(l, m, li, li);
            TriedDrop(l, m, li, now);
            TurnDrop(a, l, m, li, li, now);
          }
        } else {
          UsedLastStep(l, m, conn, li, s);
          TriedStep(l, m, conn, li, s, now);
          TurnStep(a, l, m, conn, li, now);
          li := li + 1;
        }
      }
    }

    lemma SoundListed(slack: Slack)
      requires Sound(slack)
      ensures Listed(conns, conn)
    {
    }

    lemma SoundBounds(i: nat)
      requires Sound(Tight) && i < |chunks|
      ensures chunks[i].received <= chunks[i].size && chunks[i].End() <= size
    {
      assert chunks[i] in chunks;
      TilesBounds(chunks, 0, size, chunks[i]);
    }

    /** First loop of `start_chunks`: give the idle chunks away, fastest unused
        connections first. */
    method AssignIdle(now: nat, connects: set<Source>, maxNew0: nat) returns (li: nat, maxNew: nat)
      requires Sound(Tight) && Ordered(conns, conn) && NoHalves(chunks) && maxNew0 > 0
      modifies this`chunks, this`conns, this`conn
      ensures Sound(Tight) && SameShape(old(chunks), chunks)
      ensures li <= |conns| && UsedLast(conns, conn, li) && Tried(conns, conn, li, now)
      ensures InTurn(old(conn), conns, conn, li, now) && FastestFirst(old(conn), conn, now)
      ensures maxNew == 0 || li == |conns| || AllBusy(chunks)
      ensures |InState(conn, Connecting)| + maxNew == |InState(old(conn), Connecting)| + maxNew0
      ensures InState(conn, Transferring) == InState(old(conn), Transferring)
      ensures conn.Keys <= old(conn).Keys && old(conn).Keys * connects <= conn.Keys && OnlyStarted(old(conn), conn, now)
    {
      hide *;
      li, maxNew := 0, maxNew0;
      SoundListed(Tight);
      OrderedUsedLast(conns, conn);
      TriedNone(conns, conn, now);
      TurnFirst(conns, conn, now);
      TurnFastest(old(conn), conns, conn, li, now);
      SameShapeRefl(chunks);
      NoneStarted(conn, now);
      BusyNone(chunks);
      var ci := 0;
      while ci < |chunks|
        invariant Sound(Tight) && ci <= |chunks| && li <= |conns| && maxNew > 0
        invariant UsedLast(conns, conn, li) && Tried(conns, conn, li, now)
        invariant InTurn(old(conn), conns, conn, li, now) && FastestFirst(old(conn), conn, now)
        invariant SameShape(old(chunks), chunks) && NoHalves(chunks)
        invariant BusyUpTo(chunks, ci)
        invariant |InState(conn, Connecting)| + maxNew == |InState(old(conn), Connecting)| + maxNew0
        invariant InState(conn, Transferring) == InState(old(conn), Transferring)
        invariant conn.Keys <= old(conn).Keys && old(conn).Keys * connects <= conn.Keys &&
            OnlyStarted(old(conn), conn, now)
        decreases |chunks| - ci
      {
        var c := chunks[ci];
        if c.conn.Some? || c.received == c.size {
          BusyNext(chunks, chunks, ci);
          ci := ci + 1;
          continue;
        }
        SoundBounds(ci);
        IdleIsEmpty(chunks, ci);
        assert c.received == 0;
        ghost var before, m := chunks, conn;
        var given;
        IdleMeaning(c);
        li, given := GiveChunk(ci, li, now, connects, old(conn));
        SoundListed(Tight);
        TurnFastest(old(conn), conns, conn, li, now);
        ShapeTrans(old(chunks), before, chunks);
        StartedTwice(old(conn), m, conn, now);
        if given {
          maxNew := maxNew - 1;
          BusyNext(before, chunks, ci);
          AttachKeepsNoHalves(before, chunks, ci);
        }
        ShapeLength(before, chunks);
        ci := ci + 1;
        if li == |conns| || maxNew == 0 {
          return;
        }
      }
      BusyAll(chunks, ci);
    }

    /** The first chunk with the most bytes still to fetch, if any has bytes to fetch. */
    method LargestRemaining() returns (i: nat, remaining: nat)
      requires forall c :: c in chunks ==> c.received <= c.size
      ensures forall c :: c in chunks ==> c.size - c.received <= remaining
      ensures remaining > 0 ==> i < |chunks| && chunks[i].size - chunks[i].received == remaining
    {
      i, remaining := 0, 0;
      for k := 0 to |chunks|
        invariant forall c :: c in chunks[..k] ==> c.size - c.received <= remaining
        invariant remaining > 0 ==> i < |chunks| && chunks[i].size - chunks[i].received == remaining
      {
        assert chunks[k] in chunks;
        assert chunks[..k + 1] == chunks[..k] + [chunks[k]];
        if chunks[k].size - chunks[k].received > remaining {
          i, remaining := k, chunks[k].size - chunks[k].received;
        }
      }
      assert chunks[..|chunks|] == chunks;
    }

    /** Start a new chunk with the last `n` bytes of chunk `i` on connection `s`. */
    method SplitFor(i: nat, n: nat, s: Source)
      requires Sound(Tight) && i < |chunks| && s in conn && conn[s].chunk.None?
      requires 0 < n < chunks[i].size - chunks[i].received
      modifies this`chunks, this`conn
      ensures Sound(Tight) && chunks == SplitOff(old(chunks), i, n, s) && SameBytes(old(chunks), chunks)
      ensures var start := old(chunks)[i].End() - n;
        conn == old(conn)[s := old(conn)[s].Started(start, n).(chunk := Some(start))]
      ensures s in conn && conn == old(conn)[s := conn[s]] && conn[s].chunk.Some?
      ensures conn[s] == old(conn)[s].Started(conn[s].chunkStart, conn[s].chunkSize).(chunk := conn[s].chunk)
      ensures |InState(conn, Connecting)| == |InState(old(conn), Connecting)| + 1
      ensures InState(conn, Transferring) == InState(old(conn), Transferring)
    {
      hide Layout, Wired, Listed, SameBytes, InState, Blocky;
      SoundBounds(i);
      var start := chunks[i].End() - n;
      var k := conn[s].Started(start, n).(chunk := Some(start));
      NoneIsIdle(chunks, conn, s, Tight);
      CountStart(conn, s, k);
      SplitLayout(size, received, chunks, disk, file, i, n, s);
      SplitWired(chunks, conn, i, n, s);
      chunks := SplitOff(chunks, i, n, s);
      conn := conn[s := k];
      SameKeysListed(conns, old(conn), conn);
    }

    /** Second loop of `start_chunks`: split the chunk with most left to fetch for
        each further unused connection. */
    method SplitLarge(now: nat, connects: set<Source>, li0: nat, maxNew0: nat, ghost a: ConnMap)
        returns (li: nat, maxNew: nat)
      requires Sound(Tight) && li0 <= |conns| && UsedLast(conns, conn, li0) && Tried(conns, conn, li0, now) &&
          InTurn(a, conns, conn, li0, now)
      modifies this`chunks, this`conns, this`conn
      ensures Sound(Tight) && SameBytes(old(chunks), chunks) && BigPieces(old(chunks), chunks)
      ensures li <= |conns| && UsedLast(conns, conn, li) && Tried(conns, conn, li, now) &&
          InTurn(a, conns, conn, li, now)
      ensures |InState(conn, Connecting)| + maxNew == |InState(old(conn), Connecting)| + maxNew0
      ensures InState(conn, Transferring) == InState(old(conn), Transferring)
      ensures AllBusy(old(chunks)) ==> AllBusy(chunks)
      ensures Halved(old(chunks), chunks)
      ensures old(conn).Keys <= connects ==> maxNew == 0 || Tried(conns, conn, |conns|, now) || NoneLarge(chunks)
      ensures conn.Keys <= old(conn).Keys && old(conn).Keys * connects <= conn.Keys && OnlyStarted(old(conn), conn, now)
      ensures maxNew0 == 0 || li0 == |old(conns)| ==>
          chunks == old(chunks) && conns == old(conns) && conn == old(conn) && li == li0 && maxNew == maxNew0
    {
      hide *;
      li, maxNew := li0, maxNew0;
      SameBytesRefl(chunks);
      HalvedNone(chunks, chunks);
      NoneStarted(conn, now);
      SoundReceived();
      BigPiecesRefl(chunks);
      while li < |conns| && maxNew > 0
        invariant Sound(Tight) && li <= |conns|
        invariant SameBytes(old(chunks), chunks) && BigPieces(old(chunks), chunks)
        invariant UsedLast(conns, conn, li) && Tried(conns, conn, li, now) && InTurn(a, conns, conn, li, now)
        invariant |InState(conn, Connecting)| + maxNew == |InState(old(conn), Connecting)| + maxNew0
        invariant InState(conn, Transferring) == InState(old(conn), Transferring)
        invariant AllBusy(old(chunks)) ==> AllBusy(chunks)
        invariant Halved(old(chunks), chunks)
        invariant conn.Keys <= old(conn).Keys && old(conn).Keys * connects <= conn.Keys &&
            OnlyStarted(old(conn), conn, now)
        invariant maxNew0 == 0 || li0 == |old(conns)| ==>
            chunks == old(chunks) && conns == old(conns) && conn == old(conn) && li == li0 && maxNew == maxNew0
        decreases |conns| - li
      {
        var s := conns[li];
        ghost var l, m, before := conns, conn, chunks;
        SoundListed(Tight);
        ListedAt(conns, conn, li);
        if conn[s].chunk.Some? {
          TriedRest(conns, conn, li, now);
          break;
        }
        if !conn[s].Eligible(now) {
          UsedLastStep(l, m, conn, li, s);
          TriedStep(l, m, conn, li, s, now);
          TurnStep(a, l, m, conn, li, now);
          li := li + 1;
          continue;
        }
        SoundReceived();
        var i, remaining := LargestRemaining();
        if remaining <= MinChunkSize * 2 {
          NoneLargeIf(chunks, remaining);
          break;
        }
        if s !in connects {
          DropAt(li);
          StartedDrop(old(conn), m, s, now);
          UsedLastDrop(l, m, li, li);
          TriedDrop(l, m, li, now);
          TurnDrop(a, l, m, li, li, now);
          break;
        }
        HalfOf(remaining);
        IsHalfStep(before, i, s);
        SplitFor(i, remaining / 2, s);
        StartedOne(old(conn), m, conn, s, now);
        SplitBig(old(chunks), before, i, remaining / 2, s);
        HalvedOnce(old(chunks), before, chunks);
        SameBytesTrans(old(chunks), before, chunks);
        UsedLastStep(l, m, conn, li, s);
        TriedStep(l, m, conn, li, s, now);
        TurnStep(a, l, m, conn, li, now);
        maxNew := maxNew - 1;
        li := li + 1;
      }
    }

    lemma SoundReceived()
      requires Sound(Tight)
      ensures forall c :: c in chunks ==> c.received <= c.size
    {
      forall c | c in chunks
        ensures c.received <= c.size
      {
        TilesBounds(chunks, 0, size, c);
      }
    }

    /** The slowest connection in use after position `li`. */
    method Slowest(li: nat, now: nat) returns (j: nat, speed: nat)
      requires Listed(conns, conn) && li < |conns|
      ensures j == 0 || (li < j < |conns| && conns[j] in conn && conn[conns[j]].chunk.Some? &&
          speed == conn[conns[j]].Speed(now))
      ensures j == 0 ==> speed == 0xFFFF_FFFF
      ensures forall k :: li < k < |conns| && conns[k] in conn && conn[conns[k]].chunk.Some? ==>
          speed <= conn[conns[k]].Speed(now)
    {
      j, speed := 0, 0xFFFF_FFFF;
      for k := li + 1 to |conns|
        invariant j == 0 || (li < j < |conns| && conns[j] in conn && conn[conns[j]].chunk.Some? &&
            speed == conn[conns[j]].Speed(now))
        invariant j == 0 ==> speed == 0xFFFF_FFFF
        invariant forall q :: li < q < k && conns[q] in conn && conn[conns[q]].chunk.Some? ==>
            speed <= conn[conns[q]].Speed(now)
      {
        assert conns[k] in conns;
        if conn[conns[k]].chunk.Some? && conn[conns[k]].Speed(now) < speed {
          j, speed := k, conn[conns[k]].Speed(now);
        }
      }
    }

    /** Cancel the connection at `j`, free its chunk and forget its source. */
    method EvictAt(j: nat, now: nat) returns (i: nat)
      requires Sound(Tight) && j < |conns| && conns[j] in conn && conn[conns[j]].chunk.Some?
      modifies this`chunks, this`conns, this`conn
      ensures Sound(Tight) && SameShape(old(chunks), chunks)
      ensures i < |chunks| && chunks[i].Idle() && !chunks[i].Complete()
      ensures chunks == old(chunks)[i := old(chunks)[i].(conn := None)]
      ensures conns == Without(old(conns), j) && conn == old(conn) - {old(conns)[j]}
      ensures |InState(conn, Connecting)| + |InState(conn, Transferring)| + 1
           == |InState(old(conn), Connecting)| + |InState(old(conn), Transferring)|
      ensures |InState(conn, Connecting)| <= |InState(old(conn), Connecting)|
      ensures |InState(conn, Transferring)| <= |InState(old(conn), Transferring)|
    {
      hide Layout, Wired, Listed, Without, InState, Blocky;
      var t := conns[j];
      ghost var m, before := conn, chunks;
      AttachedIsBusy(chunks, conn, t);
      CountDrop(conn, t);
      i := Detach(t, conn[t].Cancel(now), Tight);
      assert conn - {t} == m - {t};
      FetchedIncomplete(before, m, i);
      WithoutListed(conns, m, j);
      ForgetIdle(chunks, conn, t, Tight);
      conns := Without(conns, j);
      conn := conn - {t};
    }

    /** Replace the connection at `j` by the unused one at `li`. */
    method ReplaceAt(li: nat, j: nat, now: nat, connects: set<Source>, ghost a: ConnMap) returns (started: bool)
      requires Sound(Tight) && li < j < |conns| && conns[j] in conn && conn[conns[j]].chunk.Some?
      requires conns[li] in conn && conn[conns[li]].chunk.None? && conn[conns[li]].Eligible(now)
      requires UsedLast(conns, conn, li) && Tried(conns, conn, li, now) && InTurn(a, conns, conn, li, now)
      requires SlowAndWorse(conns, conn, li, j, now)
      modifies this`chunks, this`conns, this`conn
      ensures Sound(Tight) && SameShape(old(chunks), chunks)
      ensures Spared(a, old(conn), connects) ==> Spared(a, conn, connects)
      ensures started == (old(conns)[li] in connects)
      ensures conn.Keys <= old(conn).Keys && OnlyStarted(old(conn), conn, now)
      ensures started ==> li < |conns| == |old(conns)| - 1 && UsedLast(conns, conn, li + 1)
      ensures var at := if started then li + 1 else li; Tried(conns, conn, at, now) && InTurn(a, conns, conn, at, now)
      ensures started ==> AllBusy(old(chunks)) ==> AllBusy(chunks)
      ensures |InState(conn, Connecting)| + |InState(conn, Transferring)| + (if started then 0 else 1)
           == |InState(old(conn), Connecting)| + |InState(old(conn), Transferring)|
      ensures |InState(conn, Transferring)| <= |InState(old(conn), Transferring)|
      ensures |InState(conn, Connecting)| <= |InState(old(conn), Connecting)| + if started then 1 else 0
    {
      hide *;
      ghost var l, m, before := conns, conn, chunks;
      var s := conns[li];
      SoundListed(Tight);
      ListedDistinct(conns, conn, li, j);
      var i := EvictAt(j, now);
      SparedEvict(a, l, m, li, j, now, connects);
      NoneStarted(m, now);
      StartedDrop(m, m, l[j], now);
      UsedLastDrop(l, m, li, j);
      TriedDropLater(l, m, li, j, now);
      TurnEvict(a, l, m, li, j, now);
      WithoutAt(l, j, li);
      ghost var l1, m1 := conns, conn;
      SoundListed(Tight);
      started := s in connects;
      ShapeLength(before, chunks);
      if started {
        Attach(i, s);
        SparedStep(a, m1, conn, s, connects);
        StartedOne(m, m1, conn, s, now);
        BusyAgain(before, i, s);
        UsedLastStep(l1, m1, conn, li, s);
        TriedStep(l1, m1, conn, li, s, now);
        TurnStep(a, l1, m1, conn, li, now);
        ShapeAgain(before, i, s);
      } else {
        DropAt(li);
        SparedDrop(a, m1, s, connects);
        StartedDrop(m, m1, s, now);
        TriedDrop(l1, m1, li, now);
        TurnDrop(a, l1, m1, li, li, now);
      }
    }

    /** Third loop of `start_chunks`, the endgame: replace slow connections by
        unused faster ones. */
    method Endgame(now: nat, connects: set<Source>, li0: nat, maxNew0: nat, ghost a: ConnMap)
      requires Sound(Tight) && li0 <= |conns| && UsedLast(conns, conn, li0) && Tried(conns, conn, li0, now) &&
          InTurn(a, conns, conn, li0, now)
      requires |InState(conn, Transferring)| <= maxSources
      requires |InState(conn, Connecting)| + maxNew0 <= 2 * (maxSources - |InState(conn, Transferring)|)
      modifies this`chunks, this`conns, this`conn
      ensures Sound(Tight) && SameShape(old(chunks), chunks)
      ensures |InState(conn, Transferring)| <= |InState(old(conn), Transferring)| && OnlyStarted(old(conn), conn, now)
      ensures |InState(conn, Connecting)| <= 2 * (maxSources - |InState(conn, Transferring)|)
      ensures AllBusy(old(chunks)) && old(conn).Keys <= connects ==> AllBusy(chunks)
      ensures FastestFirst(a, conn, now) && Worthwhile(a, conn, now)
      ensures Spared(a, old(conn), connects) ==> Spared(a, conn, connects)
      ensures li0 == |old(conns)| || maxNew0 == 0 || Tried(old(conns), old(conn), |old(conns)|, now) ==>
          chunks == old(chunks) && conns == old(conns) && conn == old(conn)
      ensures maxNew0 > 0 && old(conn).Keys <= connects ==>
          Tried(conns, conn, |conns|, now) || NoGain(a, conn, now)
    {
      hide *;
      var li: nat, maxNew := li0, maxNew0;
      ghost var still := li0 == |conns| || maxNew0 == 0 || Tried(conns, conn, |conns|, now);
      SameShapeRefl(chunks);
      NoneStarted(conn, now);
      SoundListed(Tight);
      TurnFastest(a, conns, conn, li, now);
      while li < |conns| && maxNew > 0
        invariant Sound(Tight) && li <= |conns| && SameShape(old(chunks), chunks)
        invariant UsedLast(conns, conn, li) && Tried(conns, conn, li, now) && InTurn(a, conns, conn, li, now)
        invariant FastestFirst(a, conn, now) && Worthwhile(a, conn, now)
        invariant Spared(a, old(conn), connects) ==> Spared(a, conn, connects)
        invariant |InState(conn, Transferring)| <= |InState(old(conn), Transferring)|
        invariant |InState(conn, Connecting)| + maxNew <= 2 * (maxSources - |InState(conn, Transferring)|)
        invariant AllBusy(old(chunks)) && old(conn).Keys <= connects ==> AllBusy(chunks)
        invariant conn.Keys <= old(conn).Keys && OnlyStarted(old(conn), conn, now)
        invariant li0 <= li && maxNew == maxNew0
        invariant still ==> chunks == old(chunks) && conns == old(conns) && conn == old(conn)
        decreases |conns| - li
      {
        var s := conns[li];
        ghost var l, m, before := conns, conn, chunks;
        SoundListed(Tight);
        ListedAt(conns, conn, li);
        if conn[s].chunk.Some? {
          TriedRest(conns, conn, li, now);
          break;
        }
        if !conn[s].Eligible(now) {
          UsedLastStep(l, m, conn, li, s);
          TriedStep(l, m, conn, li, s, now);
          TurnStep(a, l, m, conn, li, now);
          li := li + 1;
          continue;
        }
        NotAllTried(conns, conn, li, now);
        var j, speed := Slowest(li, now);
        if j == 0 || speed + 1024 >= conn[s].Speed(now) {
          NoGainIf(a, conns, conn, li, j, speed, now);
          break;
        }
        SlowAndWorseIs(conns, conn, li, j, now);
        var started := ReplaceAt(li, j, now, connects, a);
        SoundListed(Tight);
        TurnFastest(a, conns, conn, if started then li + 1 else li, now);
        ShapeTrans(old(chunks), before, chunks);
        StartedTwice(old(conn), m, conn, now);
        if !started {
          break;
        }
        li := li + 1;
      }
    }

    /** `start_chunks` has left nothing it could still have started: no connection, no
        attempt, or nothing worth starting. */
    ghost predicate Saturated(a: ConnMap, now: nat)
      reads this
    {
      || Tried(conns, conn, |conns|, now)
      || |InState(conn, Connecting)| >= 2 * (maxSources - |InState(conn, Transferring)|)
      || (AllBusy(chunks) && NoneLarge(chunks) && NoGain(a, conn, now))
    }

    /** Assign connections to idle chunks, split large chunks for the connections
        left over, and replace slow connections at the end. `connects` are the
        sources that can be reached. */
    method StartChunks(now: nat, connects: set<Source>)
      requires Sound(Tight) && Ordered(conns, conn) && NoHalves(chunks)
      modifies this`chunks, this`conns, this`conn
      ensures Sound(Tight) && Ordered(conns, conn)
      ensures SameBytes(old(chunks), chunks) && BigPieces(old(chunks), chunks)
      ensures |InState(conn, Transferring)| <= |InState(old(conn), Transferring)| && OnlyStarted(old(conn), conn, now)
      ensures FastestFirst(old(conn), conn, now) && Worthwhile(old(conn), conn, now)
      ensures (chunks == old(chunks) && conns == old(conns) && conn == old(conn))
           || |InState(conn, Connecting)| <= 2 * (maxSources - |InState(conn, Transferring)|)
      ensures Halved(old(chunks), chunks) && Spared(old(conn), conn, connects)
      ensures |InState(old(conn), Transferring)| < maxSources && old(conn).Keys <= connects ==>
          Saturated(old(conn), now)
    {
      hide *;
      SoundReceived();
      SameBytesRefl(chunks);
      NoneStarted(conn, now);
      BigPiecesRefl(chunks);
      SoundListed(Tight);
      TurnFirst(conns, conn, now);
      TriedNone(conns, conn, now);
      TurnFastest(conn, conns, conn, 0, now);
      HalvedNone(chunks, chunks);
      SparedAll(conn, conn, connects);
      SaturatedIf(conn, now);
      if conns == [] {
        NothingToTry(conns, conn, now);
        return;
      }
      var active, pending := CountConns();
      if active >= maxSources {
        return;
      }
      var maxNew := (maxSources - active) * 2;
      if pending >= maxNew {
        return;
      }
      maxNew := maxNew - pending;
      ghost var c0, k0 := chunks, conn.Keys;
      SoundTiles();
      var li;
      li, maxNew := AssignIdle(now, connects, maxNew);
      ghost var c1, m1 := chunks, conn;
      ShapeBytes(c0, c1, size);
      SoundListed(Tight);
      li, maxNew := SplitLarge(now, connects, li, maxNew, old(conn));
      ghost var c2, m2, l2, left := chunks, conn, conns, maxNew;
      SparedAll(old(conn), m2, connects);
      HalvedAround(c0, c1, c2);
      StartedTwice(old(conn), m1, m2, now);
      SoundTiles();
      SoundListed(Tight);
      Endgame(now, connects, li, maxNew, old(conn));
      StartedTwice(old(conn), m2, conn, now);
      ShapeBytes(c2, chunks, size);
      SameBytesTrans(c0, c1, c2);
      SameBytesTrans(c0, c2, chunks);
      BigPiecesAround(c0, c1, c2, chunks);
      SoundParts(Tight);
      HalvedShape(c0, c2, chunks);
      NoneLargeShape(c2, chunks);
      ghost var l := conns;
      SortConns();
      TriedSorted(l, conns, conn, now);
      SoundFromParts(Tight, chunks);
      SaturatedIf(old(conn), now);
    }

    lemma SaturatedIf(a: ConnMap, now: nat)
      ensures Tried(conns, conn, |conns|, now) ==> Saturated(a, now)
      ensures |InState(conn, Connecting)| >= 2 * (maxSources - |InState(conn, Transferring)|) ==> Saturated(a, now)
      ensures AllBusy(chunks) && NoneLarge(chunks) && NoGain(a, conn, now) ==> Saturated(a, now)
    {
    }

    lemma SoundTiles()
      requires Sound(Tight)
      ensures Tiles(chunks, 0, size)
    {
    }

    // -------------------------------------------------------- download_maintain

    /** `verify_chunks` succeeds exactly when no chunk is stuck. */
    lemma VerifyFailsIff(base: Slack)
      requires Sound(base)
      ensures
        (chunks != [] && Tiles(chunks, chunks[0].start, size) && forall c :: c in chunks && c.Complete() ==> c.Idle())
        <==> !AnyStuck(chunks)
      ensures base.Tight? ==> !AnyStuck(chunks)
    {
      SoundLevels();
    }

    /** Consolidation under the invariant. */
    method Tidy(ghost slack: Slack)
      requires Sound(slack) && slack.Tight?
      modifies this`chunks
      ensures Sound(slack) && chunks == Consolidate(old(chunks))
      ensures SameBytes(old(chunks), chunks) && NoHalves(chunks)
    {
      hide *;
      SoundReceived();
      SoundParts(slack);
      ghost var before := chunks;
      SoundTiles();
      ConsolidateChunks();
      ConsolidateSame(before, size);
      ConsolidateSplitsHalves(before, size);
      ConsolidateSafe(before, size);
      TidyLayout(size, received, before, chunks, conn, disk, file);
      SoundFromValues(slack);
    }

    lemma SoundFromValues(slack: Slack)
      requires Layout(size, received, chunks, disk, file) && 0 < size < U32 && chunks != []
      requires Wired(chunks, conn, slack) && Listed(conns, conn) && Blocky(disk, size) && hash == hashOf(file)
      ensures Sound(slack)
    {
    }

    /** `download_finished`: everything is there; cut off the state record, check
        the hash. */
    method Finish(env: Env)
      requires Sound(Tight) && Ordered(conns, conn) && state == Active
      requires chunks[0].received == size
      modifies this
      ensures size == old(size)
      ensures Valid() && SameBytes(old(chunks), chunks)
      ensures state == if env.verifyOk then Finished else Broken
      ensures env.verifyOk ==> disk == file
      ensures !env.verifyOk ==> disk == old(disk)
      ensures conn == Stopped(old(conn), env.now)
    {
      hide *;
      ghost var before := chunks;
      SoundTiles();
      SoundParts(Tight);
      StopAll(env.now, Tight);
      ShapeBytes(before, chunks, size);
      FirstHasAll(before, chunks);
      state := Verifying;
      WholeFile();
      if env.verifyOk {
        SoundParts(Tight);
        CutLayout(size, received, chunks, disk, file);
        disk := disk[..size];
        SoundFromValues(Tight);
        state := if hashOf(disk) == hash then Finished else Broken;
        SoundHash();
      } else {
        state := Broken;
      }
      ValidFromParts();
    }

    lemma SoundHash()
      requires Sound(Tight)
      ensures hash == hashOf(file)
    {
    }

    lemma ValidFromParts(base: Slack := Tight)
      requires (base.Tight? || base.Loose?) && Sound(base) && Ordered(conns, conn) && state != New
      requires state != Active ==> NoneAttached(conn)
      requires state == Active ==> Few(conn, maxSources) && (Lacks(chunks, size) || AnyStuck(chunks))
      requires state == Finished ==> disk == file
      ensures Valid(base)
    {
      if state != Active {
        NoneTransferring(chunks, conn, base, maxSources);
      }
    }

    lemma FirstHasAll(a: seq<Chunk>, b: seq<Chunk>)
      requires SameShape(a, b) && a != [] && a[0].received == size
      ensures b != [] && b[0].received == size
    {
      assert a[0].(conn := None) == b[0].(conn := None);
    }

    /** A first chunk with as many bytes as the file means the file is whole. */
    lemma WholeFile()
      requires Sound(Tight) && chunks != [] && chunks[0].received == size
      ensures |disk| >= size && disk[..size] == file
    {
      assert forall x: nat :: x < size ==> chunks[0].Holds(x);
      assert forall x: nat :: x < size ==> Has(chunks, x);
      assert Has(chunks, size - 1);
      assert |disk| >= size;
      forall x: nat | x < size
        ensures disk[..size][x] == file[x]
      {
        assert Has(chunks, x);
      }
    }

    /** `download_failed`, apart from deleting the file. */
    method Fail(now: nat, ghost slack: Slack)
      requires Sound(slack) && state == Active
      modifies this`chunks, this`conn, this`conns, this`state
      ensures Valid() && SameBytes(old(chunks), chunks)
      ensures state == Broken && conn == Stopped(old(conn), now)
    {
      hide *;
      ghost var before := chunks;
      SoundTilesOf(slack);
      StopAll(now, slack);
      ShapeBytes(before, chunks, size);
      state := Broken;
      ValidFromParts();
    }

    /** `download_maintain`. A stuck chunk is what `verify_chunks` calls a corrupted
        list, and it costs the whole download. Without one the download goes on
        exactly while it lacks a byte. */
    method Maintain(env: Env, ghost base: Slack := Tight)
      requires (base.Tight? || base.Loose?) && Sound(base)
      requires Ordered(conns, conn) && Few(conn, maxSources) && state == Active
      modifies this
      ensures size == old(size)
      ensures Valid() && SameBytes(old(chunks), chunks)
      ensures state == Active <==> !AnyStuck(old(chunks)) && Lacks(old(chunks), size)
      ensures state == Broken <==> AnyStuck(old(chunks)) || (!Lacks(old(chunks), size) && !env.verifyOk)
      ensures state in {Active, Finished, Broken}
      ensures state != Finished ==> disk == old(disk)
      ensures Resumed(old(conn), conn, state, env.now)
      ensures state == Active ==> Halved(Consolidate(old(chunks)), chunks) && Spared(old(conn), conn, env.connects)
      ensures state == Active && maxSources > 0 && old(conn).Keys <= env.connects ==> Saturated(old(conn), env.now)
    {
      hide *;
      ghost var before := chunks;
      FewMeans(conn, maxSources);
      var ok := VerifyChunks();
      VerifyFailsIff(base);
      if !ok {
        Fail(env.now, base);
        ResumedIf(old(conn), conn, state, env.now);
        return;
      }
      SoundBase(base);
      SoundTiles();
      Tidy(Tight);
      ghost var tidied := chunks;
      SoundParts(Tight);
      TestNotMissed(before, size);
      FirstIsAll(tidied, size);
      LacksSame(before, tidied, size);
      if chunks[0].received == size {
        Finish(env);
        ResumedIf(old(conn), conn, state, env.now);
        SameBytesTrans(before, tidied, chunks);
        return;
      }
      ghost var m := conn;
      StartChunks(env.now, env.connects);
      FewStays(m, conn, maxSources);
      ResumedIf(old(conn), conn, state, env.now);
      SameBytesTrans(before, tidied, chunks);
      LacksSame(before, chunks, size);
      ValidFromParts();
    }

    lemma SoundBase(base: Slack)
      requires (base.Tight? || base.Loose?) && Sound(base) && !AnyStuck(chunks)
      ensures Sound(Tight)
    {
      SoundLevels();
    }

    // ------------------------------------------------- saving, pausing, holding

    /** `as_downstate_save`. */
    method Save(env: Env, ghost slack: Slack := Tight) returns (ok: bool)
      requires Sound(slack)
      modifies this`disk
      ensures Sound(slack) && ok == env.saveOk
      ensures CompleteBytes(chunks) < U32 && Saveable(chunks)
      ensures ok ==> disk == WithState(old(disk), StatePacket(size, chunks, state == Paused, env.tlvs), size)
      ensures !ok ==> disk == old(disk)
    {
      hide *;
      ok := env.saveOk;
      SoundParts(slack);
      CanBeSaved(slack);
      if ok {
        SaveLayout(size, received, chunks, disk, file, StatePacket(size, chunks, state == Paused, env.tlvs));
        disk := WithState(disk, StatePacket(size, chunks, state == Paused, env.tlvs), size);
        SoundFromValues(slack);
      }
    }

    /** Stop all connections and leave only complete and empty chunks. */
    method Settle(now: nat, ghost slack: Slack)
      requires Sound(slack)
      modifies this`chunks, this`conn, this`conns
      ensures Sound(Tight) && Ordered(conns, conn) && NoneAttached(conn)
      ensures SameBytes(old(chunks), chunks) && NoHalves(chunks) && NoneBusy(chunks)
      ensures conn == Stopped(old(conn), now) && chunks == Consolidate(DetachAll(old(chunks)))
    {
      hide *;
      ghost var before := chunks;
      SoundTilesOf(slack);
      StopAll(now, slack);
      ShapeBytes(before, chunks, size);
      ghost var stopped := chunks;
      DetachedIs(before, stopped);
      Tidy(Tight);
      SameBytesTrans(before, stopped, chunks);
      SoundParts(Tight);
      NothingAttached(chunks, conn, Tight);
      NoneBusyIf(chunks);
    }

    lemma SoundTilesOf(slack: Slack)
      requires Sound(slack)
      ensures Tiles(chunks, 0, size)
    {
    }

    lemma CanBeSaved(slack: Slack)
      requires Sound(slack)
      ensures CompleteBytes(chunks) < U32 && Saveable(chunks)
    {
      CompleteAtMost(chunks, 0, size);
      TilesSaveable(chunks, 0, size);
    }

    /** `as_download_pause`. Whether or not the state could be saved, the download
        ends up paused. */
    method Pause(env: Env, ghost slack: Slack) returns (ok: bool)
      requires Sound(slack) && (state == Active || Valid())
      modifies this
      ensures size == old(size)
      ensures Valid() && SameBytes(old(chunks), chunks)
      ensures ok <==> old(state) in {Active, Held, Paused}
      ensures state == if ok then Paused else old(state)
      ensures ok && old(state) != Paused ==> NoHalves(chunks) && NoneBusy(chunks)
      ensures ok && old(state) != Paused ==>
          conn == Stopped(old(conn), env.now) && chunks == Consolidate(DetachAll(old(chunks)))
      ensures CompleteBytes(chunks) < U32 && Saveable(chunks)
      ensures disk ==
        if ok && old(state) != Paused && env.saveOk
        then WithState(old(disk), StatePacket(size, chunks, true, env.tlvs), size) else old(disk)
    {
      hide *;
      SameBytesRefl(chunks);
      CanBeSaved(slack);
      if state == Paused {
        return true;
      }
      if state != Active && state != Held {
        return false;
      }
      Settle(env.now, slack);
      state := Paused;
      var _ := Save(env);
      ValidFromParts();
      ok := true;
    }

    /** `as_download_queue`: hold the download back. If the state cannot be saved it
        is paused instead. */
    method Hold(env: Env) returns (ok: bool)
      requires Valid(Loose)
      modifies this
      ensures size == old(size)
      ensures Valid() && SameBytes(old(chunks), chunks)
      ensures ok <==> old(state) == Held || (old(state) in {Active, Paused} && env.saveOk)
      ensures state == if ok then Held else if old(state) in {Active, Paused} then Paused else old(state)
      ensures ok && old(state) != Held ==>
          conn == Stopped(old(conn), env.now) && chunks == Consolidate(DetachAll(old(chunks)))
      ensures CompleteBytes(chunks) < U32 && Saveable(chunks)
      ensures ok && old(state) != Held ==>
          disk == WithState(old(disk), StatePacket(size, chunks, old(state) == Paused, env.tlvs), size)
      ensures !(ok && old(state) != Held) ==> disk == old(disk)
    {
      hide *;
      SameBytesRefl(chunks);
      ValidLevels();
      ValidParts(Loose);
      CanBeSaved(Loose);
      if state == Held {
        return true;
      }
      if state != Active && state != Paused {
        return false;
      }
      ghost var before := chunks;
      Settle(env.now, Loose);
      ghost var settled := chunks;
      var saved := Save(env);
      if !saved {
        if state == Paused {
          ValidFromParts();
        }
        var _ := Pause(env, Tight);
        SameBytesTrans(before, settled, chunks);
        return false;
      }
      state := Held;
      ValidFromParts();
      ok := true;
    }

    lemma ValidParts(base: Slack := Tight)
      requires Valid(base)
      ensures (base.Tight? || base.Loose?) && Sound(base) && Ordered(conns, conn) && state != New
      ensures Few(conn, maxSources)
      ensures state != Active ==> NoneAttached(conn)
      ensures state == Finished ==> disk == file
      ensures state == Active ==> Lacks(chunks, size) || AnyStuck(chunks)
    {
    }

    /** `as_download_resume`. */
    method Resume(env: Env) returns (ok: bool)
      requires Valid(Loose)
      modifies this
      ensures size == old(size)
      ensures Valid(Loose) && SameBytes(old(chunks), chunks) && (AnyStuck(chunks) ==> AnyStuck(old(chunks)))
      ensures ok <==> old(state) in {Active, Paused, Held}
      ensures !ok ==> state == old(state)
      ensures old(state) in {Paused, Held} ==> Valid() && (state == Broken ==> !env.verifyOk)
      ensures old(state) in {Paused, Held} ==> state in {Active, Finished, Broken}
      ensures old(state) == Active ==> state == Active && conn == old(conn)
      ensures state != Finished ==> disk == old(disk)
      ensures old(state) in {Paused, Held} && state == Active && maxSources > 0 && old(conn).Keys <= env.connects ==>
          Saturated(old(conn), env.now)
    {
      hide *;
      SameBytesRefl(chunks);
      ValidLevels();
      if state == Active {
        return true;
      }
      ValidParts();
      if state != Paused && state != Held {
        return false;
      }
      state := Active;
      VerifyFailsIff(Tight);
      Maintain(env);
      ValidLevels();
      ok := true;
    }

    /** `as_download_cancel`, apart from deleting the file. */
    method Cancel(env: Env) returns (ok: bool)
      requires Valid(Loose)
      modifies this
      ensures size == old(size)
      ensures Valid() && SameBytes(old(chunks), chunks)
      ensures ok <==> old(state) in {Active, Held, Paused}
      ensures state == if ok then Cancelled else old(state)
      ensures ok ==> conn == Stopped(old(conn), env.now)
      ensures disk == old(disk)
    {
      hide *;
      SameBytesRefl(chunks);
      ValidLevels();
      ValidParts(Loose);
      if state != Active && state != Held && state != Paused {
        return false;
      }
      ghost var before := chunks;
      SoundTilesOf(Loose);
      StopAll(env.now, Loose);
      ShapeBytes(before, chunks, size);
      state := Cancelled;
      ValidFromParts();
      ok := true;
    }

    /** `maintenance_timer_func`, which runs while the download is active. */
    method Timer(env: Env)
      requires Valid(Loose) && state == Active
      modifies this
      ensures size == old(size)
      ensures Valid() && SameBytes(old(chunks), chunks)
      ensures !env.saveOk ==> state == Paused && disk == old(disk)
      ensures env.saveOk ==> (state == Broken <==>
          AnyStuck(old(chunks)) || (!Lacks(old(chunks), size) && !env.verifyOk))
      ensures state == Active ==> OnlyStarted(old(conn), conn, env.now) && Spared(old(conn), conn, env.connects)
      ensures CompleteBytes(old(chunks)) < U32 && Saveable(old(chunks))
      ensures env.saveOk && state != Finished ==>
          disk == WithState(old(disk), StatePacket(size, old(chunks), false, env.tlvs), size)
      ensures state == Active && maxSources > 0 && old(conn).Keys <= env.connects ==> Saturated(old(conn), env.now)
    {
      hide *;
      ValidParts(Loose);
      var saved := Save(env, Loose);
      if !saved {
        var _ := Pause(env, Loose);
        return;
      }
      Maintain(env, Loose);
      ResumedActive(old(conn), conn, state, env.now);
    }

    /** A new connection record, in its place in the list. */
    method AddConn(s: Source, ghost slack: Slack := Tight)
      requires Wired(chunks, conn, slack) && Listed(conns, conn) && Ordered(conns, conn) && Few(conn, maxSources) &&
          s !in conn
      modifies this`conns, this`conn
      ensures Wired(chunks, conn, slack) && Listed(conns, conn) && Ordered(conns, conn) && Few(conn, maxSources)
      ensures conn == old(conn)[s := NewConn] && conns == Insert(old(conns), KeyOf(conn), RankCmp, s)
      ensures NoneAttached(old(conn)) ==> NoneAttached(conn)
    {
      hide *;
      AddWired(chunks, conn, conns, s, slack);
      AddFew(conn, s, maxSources);
      conn := conn[s := NewConn];
      InsertConn(s);
    }

    /** `as_download_add_source`. */
    method AddSource(s: Source, env: Env) returns (added: bool)
      requires Valid(Loose)
      modifies this
      ensures size == old(size)
      ensures Valid(Loose) && SameBytes(old(chunks), chunks) && (AnyStuck(chunks) ==> AnyStuck(old(chunks)))
      ensures added == (s !in old(conn))
      ensures !added ==> conn == old(conn) && conns == old(conns)
      ensures !added || old(state) != Active ==> chunks == old(chunks) && state == old(state)
      ensures added && old(state) != Active ==> conn == old(conn)[s := NewConn]
      ensures added && state == Active ==>
        OnlyStarted(old(conn)[s := NewConn], conn, env.now) && Spared(old(conn)[s := NewConn], conn, env.connects)
      ensures added && old(state) == Active ==> Valid() && (state == Broken ==> AnyStuck(old(chunks)) || !env.verifyOk)
      ensures added && state == Active && maxSources > 0 && old(conn).Keys + {s} <= env.connects ==>
          Saturated(old(conn)[s := NewConn], env.now)
      ensures state != Finished ==> disk == old(disk)
    {
      hide *;
      SameBytesRefl(chunks);
      ValidParts(Loose);
      if s in conn {
        return false;
      }
      SoundParts(Loose);
      AddConn(s, Loose);
      SoundFromValues(Loose);
      if state == Active {
        Maintain(env, Loose);
        ResumedActive(old(conn)[s := NewConn], conn, state, env.now);
        ValidLevels();
      } else {
        ValidFromParts(Loose);
      }
      added := true;
    }

    // --------------------------------------------------------- connection events

    /** The bytes are those of the file from `pos` on; what a remote sends beyond
        the end of the file does not matter. */
    predicate Genuine(data: seq<byte>, pos: nat) {
      forall j :: 0 <= j < |data| && pos + j < |file| ==> data[j] == file[pos + j]
    }

    /** One past the last byte connection `s` has counted. */
    function Position(s: Source): nat
      reads this`conn
      requires s in conn
    {
      conn[s].chunkStart + conn[s].curr
    }

    /** The end of a request on connection `s`: note the outcome `k`, let go of the
        chunk and look for more to do (`conn_state_cb` on failure, queueing and
        completion). Letting go is what helps if the chunk was stuck. */
    method RequestOver(s: Source, k: Conn, env: Env, ghost slack: Slack)
      requires Sound(slack) && Ordered(conns, conn) && Few(conn, maxSources) && state == Active
      requires slack.Of(s)
      requires s in conn && conn[s].chunk.Some? && !k.Busy()
      modifies this
      ensures size == old(size)
      ensures Valid() && SameBytes(old(chunks), chunks)
      ensures state == Broken <==> AnyStuckBut(old(chunks), s) || (!Lacks(old(chunks), size) && !env.verifyOk)
      ensures state == Active <==> !AnyStuckBut(old(chunks), s) && Lacks(old(chunks), size)
      ensures state in {Active, Finished, Broken} && (state != Finished ==> disk == old(disk))
      ensures Resumed(Released(old(conn), s, k), conn, state, env.now)
      ensures state == Active ==> Spared(Released(old(conn), s, k), conn, env.connects)
      ensures state == Active && maxSources > 0 && old(conn).Keys <= env.connects ==>
          Saturated(Released(old(conn), s, k), env.now)
    {
      hide *;
      ghost var before, m := chunks, conn;
      SoundTilesOf(slack);
      LetGoIsIdle(k);
      FewReleased(conn, s, k.(chunk := None));
      ReleasedIs(conn, s, k);
      var _ := Disassociate(s, k, slack);
      FewStays(m, conn, maxSources);
      ShapeBytes(before, chunks, size);
      LacksSame(before, chunks, size);
      ghost var after := chunks;
      BaseIs(slack);
      Maintain(env, slack.Base());
      SameBytesTrans(before, after, chunks);
    }

    /** Write `data` where chunk `i` has got to and count it. The connection has
        counted `n` bytes; those beyond the end of the chunk are not written. */
    method Store(i: nat, s: Source, data: seq<byte>, ghost n: nat, ghost loose: bool)
      requires Sound(Ahead(s, n, loose)) && i < |chunks| && chunks[i].conn == Some(s) && s in conn
      requires chunks[i].received <= chunks[i].size && chunks[i].End() <= size
      requires |data| == if n <= chunks[i].size - chunks[i].received then n else chunks[i].size - chunks[i].received
      requires Genuine(data, chunks[i].start + chunks[i].received)
      requires !conn[s].state.Connecting?
      modifies this`chunks, this`received, this`disk
      ensures chunks == old(chunks)[i := old(chunks)[i].(received := old(chunks)[i].received + |data|)]
      ensures received == old(received) + |data|
      ensures disk == WriteAt(old(disk), old(chunks)[i].start + old(chunks)[i].received, data)
      ensures Sound(Settling(chunks[i], s, n - |data|, loose))
    {
      hide Tiles, Listed, Got, WriteAt, Faithful;
      var c := chunks[i];
      var d := c.(received := c.received + |data|);
      ghost var before := chunks;
      ReceiveLayout(size, received, chunks, disk, file, i, data);
      BlockyWrite(disk, size, c.start + c.received, data);
      assert chunks[i] in chunks && Fits(c, conn, Ahead(s, n, loose));
      RewireOne(chunks, size, conn, i, s, d, conn[s], Ahead(s, n, loose), Settling(d, s, n - |data|, loose));
      assert conn[s := conn[s]] == conn;
      disk := WriteAt(disk, c.start + c.received, data);
      received := received + |data|;
      chunks := chunks[i := d];
    }

    /** `conn_data_cb`: data for the chunk of connection `s`, which the connection
        has counted already. Returns whether the connection may go on reading, and
        how many bytes were new. */
    method DataCb(s: Source, data: seq<byte>, env: Env, ghost loose: bool) returns (goOn: bool, ghost written: nat)
      requires Sound(Ahead(s, |data|, loose)) && Ordered(conns, conn) && Few(conn, maxSources) && state == Active
      requires s in conn && conn[s].state == Transferring && conn[s].chunk.Some? && 0 < |data| <= conn[s].curr
      requires Genuine(data, Position(s) - |data|)
      modifies this
      ensures size == old(size)
      ensures !goOn ==> Valid()
      ensures !env.writeOk ==> state == Paused && conn == Stopped(old(conn), env.now) && PausedSave(old(disk), env)
      ensures !goOn && env.writeOk ==>
          Resumed(Released(old(conn), s, old(conn)[s].Cancel(env.now)), conn, state, env.now)
      ensures state == Active ==> OthersStarted(old(conn), conn, s, env.now)
      ensures env.writeOk && state != Finished ==> SameTail(old(disk), disk, size)
      ensures env.writeOk && state == Broken ==> AnyStuckBut(old(chunks), s) || !env.verifyOk
      ensures goOn ==> state == Active && Ordered(conns, conn) && conn == old(conn)
      ensures goOn ==> Sound(AfterRead(s, conn[s].curr == conn[s].chunkSize, loose))
      ensures goOn ==> (AnyStuckBut(chunks, s) <==> AnyStuckBut(old(chunks), s))
      ensures goOn <==>
        env.writeOk && StillWanted(old(chunks), s, old(Position(s)), old(conn)[s].chunkStart + old(conn)[s].chunkSize)
      ensures written == if env.writeOk then Useful(old(chunks), s, old(Position(s)) - |data|, |data|) else 0
      ensures Gained(old(chunks), chunks, old(Position(s)) - |data|, written)
    {
      hide *;
      ghost var before, d0 := chunks, disk;
      ghost var slack := Ahead(s, |data|, loose);
      SoundTilesOf(slack);
      SoundParts(slack);
      ChunkOf(chunks, size, conn, slack, s);
      var i := FindChunk(s);
      var c := chunks[i];
      FetchFacts(chunks, size, conn, i, s, |data|, loose);
      StillWantedMeans(chunks, s, conn[s].chunkStart + conn[s].curr, conn[s].chunkStart + conn[s].chunkSize);
      ghost var pos := c.start + c.received;
      PositionIs(s);
      assert pos == old(Position(s)) - |data|;
      if !env.writeOk {
        written := 0;
        var _ := Pause(env, slack);
        PausedSaveIs(d0, env);
        GainedNothing(before, chunks, pos);
        return false, 0;
      }
      var writeLen := if |data| > c.size - c.received then c.size - c.received else |data|;
      written := writeLen;
      GenuinePrefix(data, writeLen, pos);
      Store(i, s, data[..writeLen], |data|, loose);
      TailWrite(d0, size, pos, data[..writeLen]);
      GainedSome(before, size, chunks, i, writeLen);
      ghost var stored := chunks;
      ReceivedStuckBut(before, i, s, writeLen);
      SettlingCases(chunks[i], s, |data| - writeLen, conn[s], loose);
      if chunks[i].received == chunks[i].size {
        if |data| != writeLen || conn[s].chunkStart + conn[s].chunkSize > chunks[i].End() {
          CancelIsIdle(conn[s], env.now);
          OthersReleased(conn, s, conn[s].Cancel(env.now), env.now);
          RequestOver(s, conn[s].Cancel(env.now), env, Settling(chunks[i], s, |data| - writeLen, loose));
          GainedSame(before, stored, chunks, pos, writeLen);
          SameTailRefl(disk, size);
          return false, written;
        }
      }
      OthersStill(conn, s, conn[s], env.now);
      assert conn[s := conn[s]] == conn;
      goOn := true;
    }

    /** The disk after the download was paused: with a new record, if saving works. */
    ghost predicate PausedSave(d0: seq<byte>, env: Env)
      reads this
    {
      && size < U32 && CompleteBytes(chunks) < U32 && Saveable(chunks)
      && disk == if env.saveOk then WithState(d0, StatePacket(size, chunks, true, env.tlvs), size) else d0
    }

    lemma PausedSaveIs(d0: seq<byte>, env: Env)
      requires size < U32 && CompleteBytes(chunks) < U32 && Saveable(chunks)
      ensures PausedSave(d0, env) <==>
          disk == if env.saveOk then WithState(d0, StatePacket(size, chunks, true, env.tlvs), size) else d0
    {
    }

    lemma PositionIs(s: Source)
      requires s in conn
      ensures Position(s) == conn[s].chunkStart + conn[s].curr
    {
    }

    lemma GenuinePrefix(data: seq<byte>, n: nat, pos: nat)
      requires Genuine(data, pos) && n <= |data|
      ensures Genuine(data[..n], pos)
    {
    }

    /** Connection `s` counts `data` and passes it on. */
    method Feed(s: Source, data: seq<byte>, env: Env, ghost base: Slack) returns (goOn: bool, ghost written: nat)
      requires Valid(base) && state == Active && |data| > 0
      requires s in conn && conn[s].state == Transferring && Genuine(data, Position(s))
      modifies this
      ensures size == old(size)
      ensures !goOn ==> Valid()
      ensures goOn ==> state == Active && Ordered(conns, conn) && Few(conn, maxSources)
      ensures goOn ==> conn == old(conn)[s := old(conn)[s].(curr := old(conn)[s].curr + |data|)]
      ensures state == Active ==> OthersStarted(old(conn), conn, s, env.now)
      ensures goOn ==> Sound(AfterRead(s, conn[s].curr == conn[s].chunkSize, base.Loose?))
      ensures goOn <==>
        env.writeOk &&
        StillWanted(old(chunks), s, old(Position(s)) + |data|, old(conn)[s].chunkStart + old(conn)[s].chunkSize)
      ensures !env.writeOk ==> state == Paused && PausedSave(old(disk), env)
      ensures env.writeOk && state != Finished ==> SameTail(old(disk), disk, size)
      ensures env.writeOk && state == Broken ==> AnyStuckBut(old(chunks), s) || !env.verifyOk
      ensures goOn ==> (AnyStuckBut(chunks, s) <==> AnyStuckBut(old(chunks), s))
      ensures written == if env.writeOk then Useful(old(chunks), s, old(Position(s)), |data|) else 0
      ensures Gained(old(chunks), chunks, old(Position(s)), written)
    {
      hide *;
      ValidParts(base);
      PositionIs(s);
      SoundParts(base);
      CountAhead(chunks, conns, conn, s, |data|, maxSources, base);
      BusyAttached(s, base);
      conn := conn[s := conn[s].(curr := conn[s].curr + |data|)];
      SoundFromValues(Ahead(s, |data|, base.Loose?));
      PositionIs(s);
      ghost var counted := conn;
      goOn, written := DataCb(s, data, env, base.Loose?);
      OthersFrom(old(conn), counted, conn, s, env.now);
    }

    /** `downconn_read_body` with `data` read from the socket and decrypted. */
    method Body(s: Source, data: seq<byte>, env: Env) returns (ghost written: nat)
      requires Valid(Loose) && state == Active && |data| > 0
      requires s in conn && conn[s].state == Transferring && Genuine(data, Position(s))
      modifies this
      ensures size == old(size)
      ensures Valid(Loose) && (AnyStuck(chunks) ==> AnyStuck(old(chunks)))
      ensures !env.writeOk ==> state == Paused && PausedSave(old(disk), env)
      ensures env.writeOk && state != Finished ==> SameTail(old(disk), disk, size)
      ensures env.writeOk && state == Broken ==> AnyStuckBut(old(chunks), s) || !env.verifyOk
      ensures env.writeOk && old(conn)[s].curr + |data| == old(conn)[s].chunkSize &&
              FetchEnd(old(chunks), s) == old(Position(s)) + |data| ==>
                Resumed(Released(old(conn), s, old(conn)[s].Done(|data|, env.now)), conn, state, env.now)
      ensures state == Active ==> OthersStarted(old(conn), conn, s, env.now)
      ensures written == if env.writeOk then Useful(old(chunks), s, old(Position(s)), |data|) else 0
      ensures Gained(old(chunks), chunks, old(Position(s)), written)
    {
      hide *;
      ghost var pos := Position(s);
      ghost var before, d0 := chunks, disk;
      ghost var base := Level();
      LevelMeans();
      var goOn;
      StillWantedMeans(chunks, s, pos + |data|, conn[s].chunkStart + conn[s].chunkSize);
      PositionIs(s);
      goOn, written := Feed(s, data, env, base);
      ghost var stored := chunks;
      if goOn {
        if conn[s].curr == conn[s].chunkSize {
          AfterReadIs(s, base.Loose?);
          BusyAttached(s, AfterRead(s, true, base.Loose?));
          DoneIsIdle(old(conn)[s], |data|, env.now);
          ReleasedAgain(old(conn), s, conn[s], old(conn)[s].Done(|data|, env.now));
          OthersReleased(old(conn), s, old(conn)[s].Done(|data|, env.now), env.now);
          RequestOver(s, conn[s].Done(0, env.now), env, AfterRead(s, true, base.Loose?));
          GainedSame(before, stored, chunks, pos, written);
        } else {
          AfterReadIs(s, base.Loose?);
          BusyAttached(s, base);
          StillLacks(s, base);
          ValidFromParts(base);
        }
      }
      ValidLevels();
    }

    /** Whether chunks may be stuck right now. */
    ghost function Level(): Slack
      reads this`chunks
    {
      if AnyStuck(chunks) then Loose else Tight
    }

    lemma LevelMeans()
      ensures Level().Tight? || Level().Loose?
      ensures Level().Loose? <==> AnyStuck(chunks)
      ensures Valid(Loose) ==> Valid(Level())
    {
      ValidLevels();
    }

    lemma StillLacks(s: Source, slack: Slack)
      requires Sound(slack) && s in conn && conn[s].chunk.Some?
      ensures Lacks(chunks, size) || AnyStuck(chunks)
    {
      AttachedLacks(chunks, size, conn, slack, s);
    }

    /** The remote accepts the request: the connection transfers from now on, or
        is closed again if enough others do (`DOWNCONN_TRANSFERRING`). */
    method Accepted(s: Source, env: Env) returns (accepted: bool)
      requires Valid(Loose) && state == Active && s in conn && conn[s].state == Connecting
      modifies this`chunks, this`conn, this`conns
      ensures Valid(Loose) && SameBytes(old(chunks), chunks) && (AnyStuck(chunks) <==> AnyStuck(old(chunks)))
      ensures accepted <==> |InState(old(conn), Transferring)| + 1 < maxSources
      ensures accepted ==> chunks == old(chunks) && conn == old(conn)[s := old(conn)[s].Accepted(env.now)]
      ensures OthersStarted(old(conn), conn, s, env.now)
      ensures s in conn && conn[s].failCount == 0 && conn[s].queueNextTry == 0
      ensures if accepted then conn[s].state == Transferring && conn[s].requestTime == env.now
              else conn[s].state == Unused && conn[s].chunk.None?
    {
      hide *;
      ghost var before, m := chunks, conn;
      var k := conn[s].Accepted(env.now);
      ghost var base := Level();
      LevelMeans();
      ValidParts(base);
      SoundParts(base);
      BusyAttached(s, base);
      SameBytesRefl(chunks);
      ConnectingNotStuck(chunks, conn, s, base);
      AcceptValues(chunks, conns, conn, s, env.now, base);
      conn := conn[s := k];
      SoundFromValues(base);
      SoundListed(base);
      var active, _ := CountConns();
      accepted := active < maxSources;
      if !accepted {
        var gone := k.Cancel(env.now);
        CancelIsIdle(k, env.now);
        CancelKeeps(k, env.now);
        LetGoIsIdle(gone);
        CountUndone(m, s, k, gone.(chunk := None));
        BaseIs(base);
        var _ := Release(s, gone, base, false);
        FewStays(m, conn, maxSources);
        SoundTilesOf(base);
        ShapeBack(before, chunks, size);
        LacksSame(before, chunks, size);
      } else {
        FewBelow(conn, maxSources);
      }
      AcceptedKeeps(m[s], env.now);
      OthersStill(m, s, conn[s], env.now);
      assert conn == m[s := conn[s]];
      ValidFromParts(base);
      ValidLevels();
    }

    /** A reply whose header brings the whole body along, to a request that ends
        where its chunk does, and that is accepted. */
    predicate Sticks(s: Source, range: Option<nat>, data: seq<byte>, env: Env)
      reads this
    {
      && state == Active && s in conn && conn[s].state == Connecting && Genuine(data, conn[s].chunkStart)
      && range == Some(conn[s].chunkStart) && |InState(conn, Transferring)| + 1 < maxSources && env.writeOk
      && 0 < |data| == conn[s].chunkSize && FetchEnd(chunks, s) == conn[s].chunkStart + |data|
    }

    /** `downconn_handle_reply` for anything but a 503: `range` is the start of the
        range that a 200 or 206 reply names, and `data` the part of the body that
        came with the header. The check for the end of the request is skipped here,
        and so the chunk may get stuck. */
    method Reply(s: Source, range: Option<nat>, data: seq<byte>, env: Env) returns (accepted: bool, ghost written: nat)
      requires Valid(Loose) && state == Active && s in conn && conn[s].state == Connecting
      requires Genuine(data, conn[s].chunkStart)
      modifies this
      ensures size == old(size)
      ensures accepted <==>
        range == Some(old(conn)[s].chunkStart) && |InState(old(conn), Transferring)| + 1 < maxSources
      ensures written == if accepted && env.writeOk then Useful(old(chunks), s, old(Position(s)), |data|) else 0
      ensures Gained(old(chunks), chunks, old(Position(s)), written)
      ensures Valid(Loose) && (AnyStuck(chunks) ==> AnyStuck(old(chunks)) || old(Sticks(s, range, data, env)))
      ensures old(Sticks(s, range, data, env)) ==>
                && state == Active && s in conn && conn[s].state == Transferring
                && AnyStuck(chunks) && StuckOn(chunks, s) && (AnyStuckBut(chunks, s) <==> AnyStuckBut(old(chunks), s))
      ensures range != Some(old(conn)[s].chunkStart) ==>
          Resumed(Released(old(conn), s, old(conn)[s].Rejected()), conn, state, env.now)
      ensures range != Some(old(conn)[s].chunkStart) ==> Counted(s, old(conn)[s].failCount + 1, env)
      ensures state == Active ==> OthersStarted(old(conn), conn, s, env.now)
      ensures if accepted && data != [] && !env.writeOk then state == Paused && PausedSave(old(disk), env)
              else state == Finished || SameTail(old(disk), disk, size)
      ensures state == Broken ==> AnyStuck(old(chunks)) || !env.verifyOk
    {
      hide *;
      ghost var before, pos, end, d0 := chunks, Position(s), conn[s].chunkStart + conn[s].chunkSize, disk;
      ghost var sticks := Sticks(s, range, data, env);
      SticksMeans(s, range, data, env);
      AtRequestStart(s);
      SameTailRefl(disk, size);
      accepted, written := false, 0;
      StuckBut(before, s);
      if range != Some(conn[s].chunkStart) {
        var k := conn[s].Rejected();
        ValidParts(Loose);
        BusyAttached(s, Loose);
        RejectedIsIdle(conn[s]);
        BaseIs(Loose);
        RequestOver(s, k, env, Loose);
        IsCounted(old(conn), s, k, env);
        OthersReleased(old(conn), s, k, env.now);
        SameTailRefl(disk, size);
        ValidLevels();
        GainedNothing(before, chunks, pos);
        return;
      }
      accepted := Accepted(s, env);
      ghost var taken := conn;
      GainedNothing(before, chunks, pos);
      UsefulNothing(before, s, pos);
      if accepted && data != [] {
        AcceptedKeeps(old(conn)[s], env.now);
        PositionIs(s);
        ghost var base := Level();
        LevelMeans();
        var goOn;
        goOn, written := Feed(s, data, env, base);
        OthersFrom(old(conn), taken, conn, s, env.now);
        StillWantedMeans(before, s, pos + |data|, end);
        if goOn {
          ghost var all := conn[s].curr == conn[s].chunkSize;
          AfterReadIs(s, base.Loose?);
          BusyAttached(s, AfterRead(s, all, base.Loose?));
          StillLacks(s, AfterRead(s, all, base.Loose?));
          SoundFullIsLoose(s);
          if all {
            StuckChunk(s, AfterRead(s, all, base.Loose?));
          }
          ValidFromParts(if all then Loose else base);
        }
      }
      ValidLevels();
    }

    lemma SticksMeans(s: Source, range: Option<nat>, data: seq<byte>, env: Env)
      ensures Sticks(s, range, data, env) <==>
        && state == Active && s in conn && conn[s].state == Connecting && Genuine(data, conn[s].chunkStart)
        && range == Some(conn[s].chunkStart) && |InState(conn, Transferring)| + 1 < maxSources && env.writeOk
        && 0 < |data| == conn[s].chunkSize && FetchEnd(chunks, s) == conn[s].chunkStart + |data|
    {
    }

    lemma SoundFullIsLoose(s: Source)
      ensures Sound(Full(s)) || Sound(Tight) ==> Sound(Loose)
    {
      SoundLevels();
      if Sound(Full(s)) {
        FullIsLoose(chunks, conn, s);
      }
    }

    lemma AtRequestStart(s: Source)
      requires Valid(Loose) && s in conn && conn[s].state == Connecting
      ensures Position(s) == conn[s].chunkStart && conn[s].curr == 0
      ensures FetchEnd(chunks, s) <= conn[s].chunkStart + conn[s].chunkSize
    {
      ChunkOf(chunks, size, conn, Loose, s);
      var i :| 0 <= i < |chunks| && chunks[i].conn == Some(s);
      assert chunks[i] in chunks && Fits(chunks[i], conn, Loose);
      FetchEndAt(chunks, size, conn, Loose, i, s);
    }

    lemma StuckChunk(s: Source, slack: Slack)
      requires Sound(slack) && slack.Of(s) && slack.Extra(s) == 0
      requires s in conn && conn[s].chunk.Some? && conn[s].curr == conn[s].chunkSize
      ensures AnyStuck(chunks) && StuckOn(chunks, s)
    {
      ChunkOf(chunks, size, conn, slack, s);
      var i :| 0 <= i < |chunks| && chunks[i].conn == Some(s);
      assert chunks[i] in chunks && Fits(chunks[i], conn, slack);
    }

    /** The request fails or times out, in either phase: only a request that was
        never answered counts against the source. If the chunk of `s` was stuck it
        is set free. */
    method ConnFailed(s: Source, env: Env)
      requires Valid(Loose) && state == Active && s in conn && conn[s].Busy()
      modifies this
      ensures size == old(size)
      ensures Valid() && SameBytes(old(chunks), chunks)
      ensures state == Broken <==> AnyStuckBut(old(chunks), s) || (!Lacks(old(chunks), size) && !env.verifyOk)
      ensures state == Active <==> !AnyStuckBut(old(chunks), s) && Lacks(old(chunks), size)
      ensures state in {Active, Finished, Broken} && (state != Finished ==> disk == old(disk))
      ensures Resumed(Released(old(conn), s, old(conn)[s].Lost()), conn, state, env.now)
      ensures old(conn)[s].state == Connecting ==> Counted(s, old(conn)[s].failCount + 1, env)
      ensures old(conn)[s].state == Transferring ==> Counted(s, old(conn)[s].failCount, env)
    {
      var k := conn[s].Lost();
      assert !k.Busy();
      assert k.failCount == conn[s].failCount + if conn[s].state == Connecting then 1 else 0;
      hide *;
      ValidParts(Loose);
      BusyAttached(s, Loose);
      BaseIs(Loose);
      RequestOver(s, k, env, Loose);
      IsCounted(old(conn), s, k, env);
    }

    /** The source of a request that is over is dropped exactly if `fails` failures is
        twice or more; otherwise this is what its record says. (While the download is
        active a source that cannot be reached may be dropped besides.) */
    ghost predicate Counted(s: Source, fails: nat, env: Env)
      reads this
    {
      && (s in conn ==> conn[s].failCount == fails < 2)
      && (state != Active || s in env.connects ==> (s in conn <==> fails < 2))
    }

    lemma IsCounted(a: ConnMap, s: Source, k: Conn, env: Env)
      requires Resumed(Released(a, s, k), conn, state, env.now)
      requires state == Active ==> Spared(Released(a, s, k), conn, env.connects)
      ensures Counted(s, k.failCount, env)
    {
      ReleasedIs(a, s, k);
      hide Released;
      if s in conn && state != Active {
        CancelKeeps(Released(a, s, k)[s], env.now);
      }
      hide Conn.Cancel, Conn.Eligible;
    }

    /** A 503 reply: come back in `retry` seconds. */
    method RemoteBusy(s: Source, retry: nat, env: Env)
      requires Valid(Loose) && state == Active && s in conn && conn[s].state == Connecting
      modifies this
      ensures size == old(size)
      ensures Valid() && SameBytes(old(chunks), chunks)
      ensures state == Broken <==> AnyStuckBut(old(chunks), s) || (!Lacks(old(chunks), size) && !env.verifyOk)
      ensures state == Active <==> !AnyStuckBut(old(chunks), s) && Lacks(old(chunks), size)
      ensures state in {Active, Finished, Broken} && (state != Finished ==> disk == old(disk))
      ensures Resumed(Released(old(conn), s, old(conn)[s].PutOff(env.now + retry)), conn, state, env.now)
      ensures Counted(s, 0, env) && (s in conn ==> conn[s].queueNextTry == env.now + retry)
      ensures state == Active && retry > 0 && s in conn ==> conn[s].state == Queued && conn[s].chunk.None?
    {
      var k := conn[s].PutOff(env.now + retry);
      assert !k.Busy() && k.failCount == 0 && k.queueNextTry == env.now + retry && k.state == Queued;
      hide *;
      ValidParts(Loose);
      BusyAttached(s, Loose);
      BaseIs(Loose);
      RequestOver(s, k, env, Loose);
      IsCounted(old(conn), s, k, env);
      IsPutOff(old(conn), s, k, env);
    }

    lemma IsPutOff(a: ConnMap, s: Source, k: Conn, env: Env)
      requires Resumed(Released(a, s, k), conn, state, env.now) && k.failCount == 0 && k.state == Queued
      ensures s in conn ==> conn[s].queueNextTry == k.queueNextTry
      ensures state == Active && k.queueNextTry > env.now && s in conn ==>
          conn[s].state == Queued && conn[s].chunk.None?
    {
      ReleasedIs(a, s, k);
      hide Released;
      if s in conn && state != Active {
        CancelKeeps(Released(a, s, k)[s], env.now);
      }
      hide Conn.Cancel;
    }

    // ------------------------------------------------------ starting a download

    /** A download that is not started yet. It may have sources. */
    ghost predicate Created()
      reads this
    {
      && state == New && chunks == [] && received == 0 && disk == []
      && hash == hashOf(file)
      && Wired(chunks, conn, Tight) && Listed(conns, conn) && Ordered(conns, conn)
      && NoneAttached(conn) && Few(conn, maxSources)
    }

    constructor (file: seq<byte>, hashOf: seq<byte> -> nat, maxSources: nat)
      ensures Created() && conn == map[]
      ensures this.file == file && this.maxSources == maxSources
    {
      this.file, this.hashOf, this.hash, this.maxSources := file, hashOf, hashOf(file), maxSources;
      size, received, chunks, conns, conn, disk, state := 0, 0, [], [], map[], [], New;
    }

    /** The sources a download gets before it starts. */
    method AddFirst(sources: seq<Source>)
      requires Created()
      modifies this`conns, this`conn
      ensures Created() && conn.Keys == old(conn).Keys + set s | s in sources
    {
      for i := 0 to |sources|
        invariant Created() && conn.Keys == old(conn).Keys + set s | s in sources[..i]
      {
        assert sources[..i + 1] == sources[..i] + [sources[i]];
        if sources[i] !in conn {
          AddConn(sources[i]);
        }
      }
      assert sources[..|sources|] == sources;
    }

    lemma SizeOfFile()
      requires Valid()
      ensures size == |file|
    {
    }

    lemma CreatedParts()
      requires Created()
      ensures Wired(chunks, conn, Tight) && Listed(conns, conn) && Ordered(conns, conn) && NoneAttached(conn) &&
          Few(conn, maxSources)
      ensures chunks == [] && received == 0 && disk == [] && hash == hashOf(file) && state == New
    {
    }

    /** `as_download_start`. */
    method Start(env: Env) returns (ok: bool)
      requires Created() && |file| < U32
      modifies this
      ensures ok <==> |file| > 0
      ensures ok ==> Valid() && size == |file| && forall x: nat :: !Has(chunks, x)
      ensures ok ==> state == if env.saveOk then Active else Paused
      ensures ok && state == Active && maxSources > 0 && old(conn).Keys <= env.connects ==>
          Saturated(old(conn), env.now)
      ensures !ok ==> Created()
    {
      hide *;
      if |file| == 0 {
        return false;
      }
      CreatedParts();
      size := |file|;
      chunks := [Chunk(0, size, 0, None)];
      state := Active;
      ghost var first := chunks;
      FreshLayout(size, conn, file);
      SoundFromValues(Tight);
      SameBytesRefl(chunks);
      VerifyFailsIff(Tight);
      var saved := Save(env);
      ok := true;
      if !saved {
        var _ := Pause(env, Tight);
      } else {
        Maintain(env);
      }
      StillNothing(first, chunks);
      SizeOfFile();
    }

    /** The file `as_download_restart` finds was written by an earlier run: what it
        says has been received is there and right. */
    ghost predicate Honest(image: seq<byte>) {
      && Plausible(image)
      && var r := LoadImage(image);
      r.Some? ==> r.value.size == |file| > 0 && Faithful(r.value.cs, image, file) && Blocky(image, |file|)
    }

    lemma SameHonest(d: Download)
      ensures d.file == file && Honest(disk) ==> d.Honest(disk)
    {
    }

    lemma HonestOpen(image: seq<byte>)
      ensures match FindState(image, 1)
              case None => LoadImage(image).None?
              case Some((bytes, current)) => |bytes| >= 8 && LoadImage(image) == LoadPacket(bytes, current)
    {
      hide LoadPacket, FromLE32, Faithful;
    }

    lemma HonestLayout(image: seq<byte>, conn: ConnMap)
      requires Honest(image) && LoadImage(image).Some? && Wired([], conn, Tight) && NoneAttached(conn)
      ensures var l := LoadImage(image).value;
        && Layout(l.size, l.received, l.cs, image, file) && 0 < l.size < U32 && l.cs != []
        && Wired(l.cs, conn, Tight) && Blocky(image, l.size)
    {
      hide LoadImage, Faithful, Blocky, Got, Has;
      LoadedIsPartition(image);
      SettledWired(LoadImage(image).value.size, LoadImage(image).value.cs, conn);
    }

    /** `as_download_restart`; `sources` are those the state record lists. */
    method Restart(image: seq<byte>, sources: seq<Source>, env: Env) returns (ok: bool)
      requires Created() && Honest(image)
      modifies this
      ensures ok <==> LoadImage(image).Some?
      ensures ok ==> Valid() && SameBytes(LoadImage(image).value.cs, chunks)
      ensures ok && LoadImage(image).value.paused ==> state == Paused && chunks == LoadImage(image).value.cs
      ensures !ok ==> Created()
    {
      hide *;
      HonestOpen(image);
      var r := ReadState(image);
      if r.None? {
        return false;
      }
      var l := LoadState(r.value.0, r.value.1);
      if l.None? {
        return false;
      }
      AddFirst(sources);
      CreatedParts();
      HonestLayout(image, conn);
      disk := image;
      size, received, chunks := l.value.size, l.value.received, l.value.cs;
      state := if l.value.paused then Paused else Active;
      SameBytesRefl(chunks);
      SoundFromValues(Tight);
      if state == Active {
        Maintain(env);
      } else {
        ValidFromParts();
      }
      ok := true;
    }

    /** The state record of a download stays readable unless it is longer than 16
        blocks or a block border in it happens to carry the magic. */
    ghost predicate Findable(image: seq<byte>)
      reads this`size
    {
      |image| >= size &&
      var m := (|image| - size) / Block;
      m <= 16 && forall k: nat :: 1 <= k < m ==> !MagicAt(image, |image| - k * Block)
    }

    /** The record behind the media part is `r`, and every byte that lay in a complete
        chunk when it was written still does. */
    ghost predicate OnDisk(r: Saved)
      reads this`size, this`disk, this`chunks
    {
      && size < U32 && CompleteBytes(r.cs) < U32 && Saveable(r.cs) && Tiles(r.cs, 0, size) && |r.tlvs| >= 2
      && disk == WithState(disk, StatePacket(size, r.cs, r.paused, r.tlvs), size)
      && SafeStays(r.cs, chunks)
    }

    /** A record, however old, brings back the bytes that lay in complete chunks when it
        was written, exactly if no incomplete chunk had a single byte; and then it tells
        the truth. */
    lemma SavedIsHonest(r: Saved)
      requires Sound(Loose) && OnDisk(r) && Findable(disk)
      ensures BringsBack(LoadImage(disk), size, r.cs, r.paused) <==> AtLeastTwo(r.cs)
      ensures AtLeastTwo(r.cs) ==> Honest(disk)
      ensures AtLeastTwo(r.cs) && NoHalves(r.cs) && NoneBusy(r.cs) ==>
                forall x: nat :: Has(LoadImage(disk).value.cs, x) <==> Has(r.cs, x)
    {
      hide LoadImage, Plausible, MagicAt, StatePacket, Saveable, CompleteBytes, WithState, Wired, Listed, Block, Tiles;
      SavedImageLoads(disk, size, r.cs, r.paused, r.tlvs);
      forall c | c in r.cs
        ensures c.received <= c.size
      {
        TilesBounds(r.cs, 0, size, c);
      }
      forall x: nat
        ensures Safe(chunks, x) ==> Has(chunks, x)
        ensures Safe(r.cs, x) ==> Has(r.cs, x)
        ensures NoHalves(r.cs) && NoneBusy(r.cs) && Has(r.cs, x) ==> Safe(r.cs, x)
      {
        SafeIsHad(chunks, x);
        SafeIsHad(r.cs, x);
      }
    }

    /** What has just been saved is on disk. */
    lemma SavedIsOnDisk(d0: seq<byte>, r: Saved)
      requires size < U32 && CompleteBytes(r.cs) < U32 && Saveable(r.cs) && Tiles(r.cs, 0, size) && |r.tlvs| >= 2
      requires disk == WithState(d0, StatePacket(size, r.cs, r.paused, r.tlvs), size) && SafeStays(r.cs, chunks)
      ensures OnDisk(r)
    {
      hide StatePacket, CompleteBytes, Saveable, Tiles, Record;
      WriteAgain(d0, size, Record(StatePacket(size, r.cs, r.paused, r.tlvs)));
    }

    /** What is on disk stays there while nothing is written behind the media part. */
    lemma StaysOnDisk(d0: seq<byte>, cs0: seq<Chunk>, r: Saved)
      requires size < U32 && CompleteBytes(r.cs) < U32 && Saveable(r.cs) && Tiles(r.cs, 0, size) && |r.tlvs| >= 2
      requires d0 == WithState(d0, StatePacket(size, r.cs, r.paused, r.tlvs), size) && SafeStays(r.cs, cs0)
      requires SameTail(d0, disk, size) && SafeStays(cs0, chunks)
      ensures OnDisk(r)
    {
      hide StatePacket, CompleteBytes, Saveable, Tiles, Record;
      var record := Record(StatePacket(size, r.cs, r.paused, r.tlvs));
      WriteAgain(d0, size, record);
      WrittenStays(d0, disk, size, record);
    }

    lemma OnDiskMeans(r: Saved)
      requires OnDisk(r)
      ensures size < U32 && CompleteBytes(r.cs) < U32 && Saveable(r.cs) && Tiles(r.cs, 0, size) && |r.tlvs| >= 2
      ensures disk == WithState(disk, StatePacket(size, r.cs, r.paused, r.tlvs), size) && SafeStays(r.cs, chunks)
    {
    }

    // --------------------------------------------------------------- whole runs

    /** A reply that gets a chunk stuck. */
    predicate Sticking(e: Event, env: Env)
      reads this
    {
      e.Answer? && Sticks(e.s, e.range, e.data, env)
    }

    /** Data for a transfer that is going on. */
    predicate Arriving(e: Event)
      reads this
    {
      && e.Data? && state == Active && e.s in conn && conn[e.s].state == Transferring && e.data != []
      && Genuine(e.data, Position(e.s))
    }

    lemma ArrivingMeans(e: Event)
      ensures Arriving(e) <==>
        && e.Data? && state == Active && e.s in conn && conn[e.s].state == Transferring && e.data != []
        && Genuine(e.data, Position(e.s))
    {
    }

    /** One event. Events that cannot occur in the current state do nothing. */
    method Perform(e: Event, env: Env)
      requires Valid(Loose)
      modifies this
      ensures size == old(size)
      ensures Valid(Loose) && Kept(old(chunks), chunks)
      ensures AnyStuck(chunks) ==> AnyStuck(old(chunks)) || old(Sticking(e, env))
      ensures old(Sticking(e, env)) ==> AnyStuck(chunks)
      ensures state == Broken && old(state) != Broken ==> AnyStuck(old(chunks)) || !env.verifyOk
      ensures old(state) == Finished ==> state == Finished
      ensures old(state) == Active && state == Active ==> MovesOn(old(conn), conn, e, env.now)
      ensures old(Arriving(e)) && env.writeOk ==>
        Gained(old(chunks), chunks, old(Position(e.s)), Useful(old(chunks), e.s, old(Position(e.s)), |e.data|))
      ensures e.Found? && old(state) != Active ==> e.s in conn
      ensures e == Tick && old(state) == state == Active && maxSources > 0 && old(conn).Keys <= env.connects ==>
        Saturated(old(conn), env.now)
      ensures e == UserPauses && old(state) in {Active, Held, Paused} ==> state == Paused
      ensures e == SlotTaken && old(state) in {Active, Held, Paused} ==>
          state == Held || (state == Paused && !env.saveOk)
      ensures e == UserResumes && old(state) in {Held, Paused} ==> state in {Active, Finished, Broken}
      ensures e == UserCancels && old(state) in {Active, Held, Paused} ==> state == Cancelled
      ensures state == Finished || SameTail(old(disk), disk, size)
           || (Saves(e, env) &&
               (Wrote(old(disk), disk, size, old(chunks), env.tlvs) || Wrote(old(disk), disk, size, chunks, env.tlvs)))
    {
      hide *;
      ghost var before, d0 := chunks, disk;
      ghost var m := conn;
      MovesNone(m, e, env.now);
      SameBytesRefl(chunks);
      SameTailRefl(disk, size);
      ValidParts(Loose);
      SoundParts(Loose);
      SavesMeans(e, env);
      StickingMeans(e, env);
      ArrivingMeans(e);
      match e {
        case Data(s, data) =>
          if state == Active && s in conn && conn[s].state == Transferring && data != [] && Genuine(data, Position(s)) {
            ghost var pos, n := Position(s), 0;
            n := Body(s, data, env);
            MovesOwn(m, conn, e, env.now);
            PausedWrote(d0, env);
            GainedKept(before, chunks, pos, n);
            StuckBut(before, s);
            return;
          }
        case Answer(s, range, data) =>
          if state == Active && s in conn && conn[s].state == Connecting && Genuine(data, conn[s].chunkStart) {
            ghost var pos := Position(s);
            var _, n := Reply(s, range, data, env);
            MovesOwn(m, conn, e, env.now);
            PausedWrote(d0, env);
            GainedKept(before, chunks, pos, n);
            return;
          }
        case Lost(s) =>
          if state == Active && s in conn && conn[s].Busy() {
            StuckBut(before, s);
            ConnFailed(s, env);
            MovesLost(m, conn, s, env.now);
          }
        case Later(s, retry) =>
          if state == Active && s in conn && conn[s].state == Connecting {
            StuckBut(before, s);
            RemoteBusy(s, retry, env);
            MovesLater(m, conn, s, retry, env.now);
          }
        case Found(s) =>
          var _ := AddSource(s, env);
          MovesFound(m, conn, s, env.now);
        case Tick =>
          if state == Active {
            Timer(env);
            MovesTick(m, conn, env.now);
            IsWrote(d0, disk, size, before, false, env.tlvs);
          }
        case UserPauses =>
          ValidLevels();
          var _ := Pause(env, Loose);
          IsWrote(d0, disk, size, chunks, true, env.tlvs);
        case UserResumes => var _ := Resume(env);
        case SlotTaken =>
          var _ := Hold(env);
          IsWrote(d0, disk, size, chunks, old(state) == Paused, env.tlvs);
        case UserCancels => var _ := Cancel(env);
      }
      ValidLevels();
      SameKept(before, chunks);
    }

    lemma PausedWrote(d0: seq<byte>, env: Env)
      ensures PausedSave(d0, env) ==>
          SameTail(d0, disk, size) || (env.saveOk && Wrote(d0, disk, size, chunks, env.tlvs))
    {
      hide StatePacket, WithState, CompleteBytes, Saveable;
    }

    lemma StickingMeans(e: Event, env: Env)
      ensures Sticking(e, env) <==> e.Answer? && Sticks(e.s, e.range, e.data, env)
      ensures e.Answer? && Sticks(e.s, e.range, e.data, env) ==>
        state == Active && e.s in conn && conn[e.s].state == Connecting && Genuine(e.data, conn[e.s].chunkStart)
    {
    }

    /** Any run at all: the invariant holds throughout, no received byte is ever
        lost, the download is over once all bytes have arrived and no chunk is
        stuck, and a finished download is the file. */
    method Run(events: seq<(Event, Env)>)
      requires Valid(Loose)
      modifies this
      ensures size == old(size)
      ensures Valid(Loose) && Kept(old(chunks), chunks)
      ensures forall x: nat :: Has(chunks, x) ==> x < |disk| && x < |file| && disk[x] == file[x]
      ensures received == Got(chunks) <= size == |file|
      ensures state == Active && !AnyStuck(chunks) ==> exists x: nat :: x < size && !Has(chunks, x)
      ensures state == Finished ==> disk == file
    {
      KeptRefl(chunks);
      for i := 0 to |events|
        invariant Valid(Loose) && Kept(old(chunks), chunks) && size == old(size)
      {
        ghost var before := chunks;
        Perform(events[i].0, events[i].1);
        KeptTrans(old(chunks), before, chunks);
      }
      GotAtMost(chunks, 0, size);
    }

    /** The record `r` on disk through any run, in which others may be written: until the
        download has finished there is always a record, no later one knows less than
        `r`, and it still is `r` if no event saves. */
    method RunSaved(events: seq<(Event, Env)>, ghost r: Saved) returns (ghost last: Saved)
      requires Valid(Loose) && OnDisk(r)
      requires forall i :: 0 <= i < |events| ==> |events[i].1.tlvs| >= 2
      modifies this
      ensures Valid(Loose) && size == old(size)
      ensures state != Finished ==> OnDisk(last) && SafeStays(r.cs, last.cs)
      ensures state != Finished && (forall i :: 0 <= i < |events| ==> !Saves(events[i].0, events[i].1)) ==> last == r
    {
      last := r;
      for i := 0 to |events|
        invariant Valid(Loose) && size == old(size)
        invariant state != Finished ==> OnDisk(last) && SafeStays(r.cs, last.cs)
        invariant state != Finished && last != r ==> exists j :: 0 <= j < i && Saves(events[j].0, events[j].1)
      {
        hide *;
        last := PerformSaved(events[i].0, events[i].1, last, r);
      }
    }

    method PerformSaved(e: Event, env: Env, ghost r: Saved, ghost first: Saved) returns (ghost last: Saved)
      requires Valid(Loose) && |env.tlvs| >= 2 && (state != Finished ==> OnDisk(r) && SafeStays(first.cs, r.cs))
      modifies this
      ensures Valid(Loose) && size == old(size) && (state != Finished ==> old(state) != Finished)
      ensures state != Finished ==> OnDisk(last) && SafeStays(first.cs, last.cs)
      ensures state != Finished && last != r ==> Saves(e, env)
    {
      hide *;
      last := r;
      ValidParts(Loose);
      SoundTilesOf(Loose);
      ghost var before, d0 := chunks, disk;
      if state == Finished {
        Perform(e, env);
        return;
      }
      OnDiskMeans(r);
      Perform(e, env);
      ValidParts(Loose);
      SoundTilesOf(Loose);
      KeptSafe(before, chunks);
      if state != Finished {
        if SameTail(d0, disk, size) {
          StaysOnDisk(d0, before, r);
        } else if Wrote(d0, disk, size, before, env.tlvs) {
          ghost var paused := WroteMeans(d0, disk, size, before, env.tlvs);
          last := Saved(before, paused, env.tlvs);
          SavedIsOnDisk(d0, last);
          SafeTrans(first.cs, r.cs, before);
        } else {
          ghost var paused := WroteMeans(d0, disk, size, chunks, env.tlvs);
          last := Saved(chunks, paused, env.tlvs);
          SafeTrans(r.cs, before, chunks);
          SafeTrans(first.cs, r.cs, chunks);
          SavedIsOnDisk(d0, last);
        }
      }
    }

    /** A run watched event by event. */
    method RunWatched(events: seq<(Event, Env)>) returns (ghost trail: seq<Snapshot>)
      requires Valid(Loose)
      modifies this
      ensures Valid(Loose) && Watched(trail, events)
      ensures trail[0] == Snapshot(old(state), old(conn)) && trail[|events|] == Snapshot(state, conn)
    {
      trail := [Snapshot(state, conn)];
      AttachedIffBusy();
      for i := 0 to |events|
        invariant Valid(Loose) && |trail| == i + 1 && Watched(trail, events[..i])
        invariant trail[0] == Snapshot(old(state), old(conn)) && trail[i] == Snapshot(state, conn)
      {
        hide *;
        Perform(events[i].0, events[i].1);
        AttachedIffBusy();
        WatchedNext(trail, events, i, Snapshot(state, conn));
        trail := trail + [Snapshot(state, conn)];
      }
      assert events[..|events|] == events;
    }

    lemma AttachedIffBusy()
      requires Valid(Loose)
      ensures forall s :: s in conn ==> (conn[s].chunk.Some? <==> conn[s].Busy())
    {
    }

    /** Any run in which no reply gets a chunk stuck: nothing is ever stuck, and the
        download fails only if the file cannot be verified. */
    method RunInStep(events: seq<(Event, Env)>)
      requires Valid()
      modifies this
      ensures size == old(size)
      ensures Valid() && Kept(old(chunks), chunks)
      ensures state == Broken && old(state) != Broken ==> exists i :: 0 <= i < |events| && !events[i].1.verifyOk
    {
      KeptRefl(chunks);
      for i := 0 to |events|
        invariant Valid() && Kept(old(chunks), chunks) && size == old(size)
        invariant state == Broken && old(state) != Broken ==> exists j :: 0 <= j < i && !events[j].1.verifyOk
      {
        hide *;
        ValidLevels();
        if !Sticking(events[i].0, events[i].1) {
          ghost var before := chunks;
          Perform(events[i].0, events[i].1);
          ValidLevels();
          KeptTrans(old(chunks), before, chunks);
        }
      }
    }

    lemma BusyAttached(s: Source, slack: Slack)
      requires Sound(slack) && s in conn && (conn[s].state.Connecting? || conn[s].state.Transferring?)
      ensures conn[s].chunk.Some?
    {
    }

  }

  /** The state of a download and the records of its connections between two events. */
  datatype Snapshot = Snapshot(state: DownloadState, conn: ConnMap)

  /** `trail` is what a run through `events` may look like: see `MovesOn`. */
  ghost predicate Watched(trail: seq<Snapshot>, events: seq<(Event, Env)>) {
    && |trail| == |events| + 1
    && (forall i, s :: 0 <= i < |trail| && s in trail[i].conn ==>
          (trail[i].conn[s].chunk.Some? <==> trail[i].conn[s].Busy()))
    && (forall i :: 0 <= i < |events| && trail[i].state == Active && trail[i + 1].state == Active ==>
          MovesOn(trail[i].conn, trail[i + 1].conn, events[i].0, events[i].1.now))
  }

  lemma WatchedNext(trail: seq<Snapshot>, events: seq<(Event, Env)>, i: nat, next: Snapshot)
    requires i < |events| && Watched(trail, events[..i])
    requires forall s :: s in next.conn ==> (next.conn[s].chunk.Some? <==> next.conn[s].Busy())
    requires trail[i].state == Active && next.state == Active ==>
        MovesOn(trail[i].conn, next.conn, events[i].0, events[i].1.now)
    ensures Watched(trail + [next], events[..i + 1])
  {
    hide MovesOn;
  }

  /** Event `e` has led to a new request to source `s`. */
  ghost predicate Asked(a: ConnMap, b: ConnMap, e: Event, s: Source) {
    s in b && b[s].chunk.Some? && (s in a && a[s].chunk.Some? ==> e == Lost(s))
  }

  /** How often source `s` is asked in the first `n` events. */
  ghost function Asks(trail: seq<Snapshot>, events: seq<(Event, Env)>, s: Source, n: nat): nat
    requires |trail| == |events| + 1 && n <= |events|
  {
    if n == 0 then 0 else
      Asks(trail, events, s, n - 1) + if Asked(trail[n - 1].conn, trail[n].conn, events[n - 1].0, s) then 1 else 0
  }

  /** Nothing that comes from source `s` reaches the download. */
  ghost predicate Silent(events: seq<(Event, Env)>, s: Source) {
    forall i :: 0 <= i < |events| ==>
        !(events[i].0.Answer? || events[i].0.Later? || events[i].0.Found?) || events[i].0.s != s
  }

  /** How often `s` can still be asked. */
  ghost function Chances(m: ConnMap, s: Source): nat {
    if s !in m then 0
    else if m[s].chunk.None? then (if m[s].failCount == 0 then 2 else 1)
    else if m[s].failCount == 0 then 1 else 0
  }

  /** A source that never answers is asked at most twice. */
  lemma {:induction false} AskedAtMostTwice(trail: seq<Snapshot>, events: seq<(Event, Env)>, s: Source, n: nat)
    requires Watched(trail, events) && n <= |events| && Silent(events, s)
    requires forall i :: 0 <= i < |trail| ==> trail[i].state == Active
    requires s in trail[0].conn ==> trail[0].conn[s].state != Transferring
    ensures Asks(trail, events, s, n) <= 2
    ensures Asks(trail, events, s, n) + Chances(trail[n].conn, s) <= 2
    ensures s in trail[n].conn ==> trail[n].conn[s].state != Transferring
  {
    if n > 0 {
      hide Asked, Chances, MovesOn;
      AskedAtMostTwice(trail, events, s, n - 1);
      ChanceUsed(trail[n - 1].conn, trail[n].conn, events[n - 1].0, s, events[n - 1].1.now);
    }
  }

  lemma ChanceUsed(a: ConnMap, b: ConnMap, e: Event, s: Source, now: nat)
    requires MovesOn(a, b, e, now)
    requires s in a ==> a[s].state != Transferring && (a[s].chunk.Some? <==> a[s].Busy())
    requires s in b ==> (b[s].chunk.Some? <==> b[s].Busy())
    requires !(e.Answer? || e.Later? || e.Found?) || e.s != s
    ensures (if Asked(a, b, e, s) then 1 else 0) + Chances(b, s) <= Chances(a, s)
    ensures s in b ==> b[s].state != Transferring
  {
    if s in b {
      assert RecordMoves(a, s, b[s], e, now);
    }
  }

  /** A source that was told to wait is left alone until its time has come. */
  lemma {:induction false} PutOffWaits(trail: seq<Snapshot>, events: seq<(Event, Env)>, s: Source, i: nat, n: nat)
    requires Watched(trail, events) && i <= n <= |events|
    requires forall j :: i <= j <= n ==> trail[j].state == Active
    requires forall j :: i <= j < n ==> events[j].0 != Found(s)
    requires s in trail[i].conn && trail[i].conn[s].state == Queued
    requires forall j :: i <= j < n ==> events[j].1.now < trail[i].conn[s].queueNextTry
    ensures s in trail[n].conn ==> trail[n].conn[s] == trail[i].conn[s] && trail[n].conn[s].chunk.None?
  {
    assert !trail[i].conn[s].Busy();
    if n > i {
      PutOffWaits(trail, events, s, i, n - 1);
      var a, b, e := trail[n - 1].conn, trail[n].conn, events[n - 1].0;
      assert MovesOn(a, b, e, events[n - 1].1.now);
      if s in b {
        assert RecordMoves(a, s, b[s], e, events[n - 1].1.now);
      }
    }
  }

  /** The program is started again and finds what download `d` has left on disk, at
      whatever time after record `r` was written. */
  method TakeUpAgain(d: Download, sources: seq<Source>, env: Env, ghost r: Saved) returns (e: Download, ok: bool)
    requires d.Sound(Loose) && d.OnDisk(r) && d.Findable(d.disk) && AtLeastTwo(r.cs)
    ensures fresh(e) && ok && e.file == d.file && e.Valid()
    ensures forall x: nat :: Has(e.chunks, x) <==> Safe(r.cs, x)
    ensures r.paused ==> e.state == Paused
  {
    hide *;
    d.SavedIsHonest(r);
    e := new Download(d.file, d.hashOf, d.maxSources);
    d.SameHonest(e);
    BringsBackMeans(LoadImage(d.disk), d.size, r.cs, r.paused);
    ok := e.Restart(d.disk, sources, env);
    SameBytesMeans(LoadImage(d.disk).value.cs, e.chunks);
  }

  lemma BringsBackMeans(l: Option<Loaded>, size: nat, cs: seq<Chunk>, paused: bool)
    requires BringsBack(l, size, cs, paused)
    ensures l.Some? && l.value.paused == paused && forall x: nat :: Has(l.value.cs, x) <==> Safe(cs, x)
  {
  }

  lemma SameBytesMeans(a: seq<Chunk>, b: seq<Chunk>)
    requires SameBytes(a, b)
    ensures forall x: nat :: Has(a, x) <==> Has(b, x)
  {
  }

  /** A download of one byte that its only source, 7, has been asked for. */
  method AskedForOneByte(b: byte, hashOf: seq<byte> -> nat) returns (d: Download)
    ensures fresh(d) && d.Valid() && d.file == [b] && d.state == Active && d.maxSources == 2
    ensures d.chunks == [Chunk(0, 1, 0, Some(7))] && d.conn == map[7 := NewConn.Started(0, 1).(chunk := Some(0))]
  {
    hide *;
    d := new Download([b], hashOf, 2);
    d.CreatedParts();
    d.size, d.chunks, d.conns, d.state := 1, [Chunk(0, 1, 0, Some(7))], [7], Active;
    d.conn := map[7 := NewConn.Started(0, 1).(chunk := Some(0))];
    AskedState(d.conn, d.chunks, d.file);
    d.SoundFromValues(Tight);
    d.ValidFromParts();
  }

  lemma AskedState(conn: ConnMap, cs: seq<Chunk>, f: seq<byte>)
    requires |f| == 1 && cs == [Chunk(0, 1, 0, Some(7))] && conn == map[7 := NewConn.Started(0, 1).(chunk := Some(0))]
    ensures Layout(1, 0, cs, [], f) && Wired(cs, conn, Tight) && Blocky([], 1) && Lacks(cs, 1) && 1 < U32
    ensures Listed([7], conn) && Ordered([7], conn) && Few(conn, 2)
  {
    OfOne(cs[0], 0, 1);
    assert !Has(cs, 0);
    assert cs[0] in cs;
    assert InState(conn, Transferring) == {};
  }

  lemma AskedFacts(conn: ConnMap, cs: seq<Chunk>)
    requires cs == [Chunk(0, 1, 0, Some(7))] && conn == map[7 := NewConn.Started(0, 1).(chunk := Some(0))]
    ensures 7 in conn && conn[7].state == Connecting && conn[7].chunkStart == 0 && conn[7].chunkSize == 1 &&
        conn[7].curr == 0
    ensures |InState(conn, Transferring)| == 0 && FetchEnd(cs, 7) == 1 && Useful(cs, 7, 0, 1) == 1 &&
        !AnyStuckBut(cs, 7)
  {
    assert InState(conn, Transferring) == {};
  }

  lemma GainedAll(a: seq<Chunk>, b: seq<Chunk>, n: nat)
    requires Gained(a, b, 0, n)
    ensures !Lacks(b, n)
  {
  }

  lemma TransferringIsBusy(k: Conn)
    ensures k.state == Transferring ==> k.Busy()
  {
  }

  /** A reply with header and body in one: the chunk gets stuck, although every byte
      has arrived. */
  method StuckExample(b: byte, hashOf: seq<byte> -> nat, env: Env) returns (d: Download)
    requires env.writeOk
    ensures fresh(d) && d.Valid(Loose) && d.file == [b] && d.state == Active && d.size == 1
    ensures AnyStuck(d.chunks) && StuckOn(d.chunks, 7) && !AnyStuckBut(d.chunks, 7) && !Lacks(d.chunks, 1)
    ensures 7 in d.conn && d.conn[7].Busy()
  {
    d := AskedForOneByte(b, hashOf);
    AskedFacts(d.conn, d.chunks);
    assert d.Genuine([b], 0);
    hide *;
    d.ValidLevels();
    d.SizeOfFile();
    d.SticksMeans(7, Some(0), [b], env);
    d.PositionIs(7);
    ghost var before := d.chunks;
    var _, n := d.Reply(7, Some(0), [b], env);
    GainedAll(before, d.chunks, 1);
    TransferringIsBusy(d.conn[7]);
  }

  /** What becomes of it: the next tick of the timer gives the download up, but if
      the connection is lost first it finishes. */
  method StuckEnds(b: byte, hashOf: seq<byte> -> nat, env: Env) returns (ticked: Download, lost: Download)
    requires env.writeOk && env.saveOk && env.verifyOk
    ensures ticked.file == [b] && ticked.state == Broken
    ensures lost.file == [b] && lost.state == Finished && lost.disk == [b]
  {
    hide *;
    ticked := StuckExample(b, hashOf, env);
    ticked.Timer(env);
    lost := StuckExample(b, hashOf, env);
    lost.ConnFailed(7, env);
    lost.ValidParts();
  }

  lemma SettlingCases(c: Chunk, s: Source, extra: nat, k: Conn, loose: bool)
    ensures c.End() == c.start + c.size
    ensures extra == 0 ==> Settling(c, s, extra, loose) == AfterRead(s, c.received == c.size, loose)
    ensures Settling(c, s, extra, loose).Of(s) && Settling(c, s, extra, loose).Base() == if loose then Loose else Tight
  {
  }

  lemma BaseIs(slack: Slack)
    ensures slack.Base().Tight? || slack.Base().Loose?
    ensures slack.Tight? || slack.Loose? ==> slack.Base() == slack && forall s :: slack.Of(s)
  {
  }

  /** How far connection `s` is out of step after a read that it may go on from. */
  ghost function AfterRead(s: Source, all: bool, loose: bool): Slack {
    if loose then Loose else if all then Full(s) else Tight
  }

  lemma AfterReadIs(s: Source, loose: bool)
    ensures AfterRead(s, true, loose) == if loose then Loose else Full(s)
    ensures AfterRead(s, false, loose) == if loose then Loose else Tight
    ensures AfterRead(s, true, loose).Of(s) && AfterRead(s, true, loose).Extra(s) == 0
    ensures AfterRead(s, false, loose).Of(s) && AfterRead(s, false, loose).Extra(s) == 0
  {
  }

  /** The chunk that `s` fetches is stuck. */
  ghost predicate StuckOn(cs: seq<Chunk>, s: Source) {
    exists c :: c in cs && c.Complete() && c.conn == Some(s)
  }

  lemma StuckBut(cs: seq<Chunk>, s: Source)
    ensures AnyStuckBut(cs, s) ==> AnyStuck(cs)
  {
  }

  /** Receiving on `s` changes nothing about the chunks of others. */
  lemma ReceivedStuckBut(cs: seq<Chunk>, i: nat, s: Source, n: nat)
    requires i < |cs| && cs[i].conn == Some(s)
    ensures AnyStuckBut(cs[i := cs[i].(received := cs[i].received + n)], s) <==> AnyStuckBut(cs, s)
  {
    var d := cs[i].(received := cs[i].received + n);
    if AnyStuckBut(cs, s) {
      var c :| c in cs && c.conn.Some? && c.conn != Some(s) && c.Complete();
      UpdateMember(cs, i, d, c);
    }
    if AnyStuckBut(cs[i := d], s) {
      var c :| c in cs[i := d] && c.conn.Some? && c.conn != Some(s) && c.Complete();
      UpdateMember(cs, i, d, c);
    }
  }

  /** Behind the media part nothing has changed. */
  ghost predicate SameTail(a: seq<byte>, b: seq<byte>, size: nat) {
    |a| >= size ==> |b| >= size && b[size..] == a[size..]
  }

  lemma TailWrite(disk: seq<byte>, size: nat, pos: nat, data: seq<byte>)
    requires pos + |data| <= size
    ensures SameTail(disk, WriteAt(disk, pos, data), size)
  {
  }

  lemma SameTailRefl(disk: seq<byte>, size: nat)
    ensures SameTail(disk, disk, size)
  {
  }

  lemma LetGoIsIdle(k: Conn)
    ensures k.(chunk := None).Busy() == k.Busy()
  {
  }

  /** Connection `s` counts `n` bytes it has just read. */
  lemma CountAhead(cs: seq<Chunk>, conns: seq<Source>, conn: ConnMap, s: Source, n: nat, max: nat, base: Slack)
    requires (base.Tight? || base.Loose?) && Wired(cs, conn, base) && Listed(conns, conn) && Ordered(conns, conn) &&
        Few(conn, max)
    requires s in conn && conn[s].state == Transferring
    ensures var m := conn[s := conn[s].(curr := conn[s].curr + n)];
      Wired(cs, m, Ahead(s, n, base.Loose?)) && Listed(conns, m) && Ordered(conns, m) && Few(m, max)
  {
    var m := conn[s := conn[s].(curr := conn[s].curr + n)];
    ReadAhead(cs, conn, s, n, base);
    hide Wired, Ordered;
    OrderedUnder(conns, conn, m);
    assert InState(m, Transferring) == InState(conn, Transferring);
  }

  lemma AcceptValues(cs: seq<Chunk>, conns: seq<Source>, conn: ConnMap, s: Source, now: nat, slack: Slack)
    requires Wired(cs, conn, slack) && Listed(conns, conn) && Ordered(conns, conn)
    requires s in conn && conn[s].state == Connecting && conn[s].chunk.Some?
    ensures var m := conn[s := conn[s].Accepted(now)];
      && Wired(cs, m, slack) && Listed(conns, m) && Ordered(conns, m)
      && |InState(m, Transferring)| == |InState(conn, Transferring)| + 1
      && m[s].chunk.Some?
  {
    var k := conn[s].Accepted(now);
    Retouch(cs, conn, s, k, slack);
    CountAccept(conn, s, k);
    hide Wired, Ordered;
    OrderedUnder(conns, conn, conn[s := k]);
  }

  lemma CountUndone(m: ConnMap, s: Source, k: Conn, gone: Conn)
    requires s in m && m[s].state == Connecting && !gone.Busy()
    ensures InState(m[s := k][s := gone], Transferring) == InState(m, Transferring)
  {
  }

  lemma ShapeBack(a: seq<Chunk>, b: seq<Chunk>, size: nat)
    requires SameShape(a, b) && Tiles(b, 0, size)
    ensures SameBytes(a, b)
  {
    assert SameShape(b, a);
    ShapeTiles(b, a, 0, size);
    ShapeBytes(a, b, size);
  }

  lemma FreshLayout(size: nat, conn: ConnMap, f: seq<byte>)
    requires size == |f| > 0 && Wired([], conn, Tight) && NoneAttached(conn)
    ensures var cs := [Chunk(0, size, 0, None)];
      Layout(size, 0, cs, [], f) && Wired(cs, conn, Tight) && Blocky([], size) && Lacks(cs, size) &&
          forall x: nat :: !Has(cs, x)
  {
    OfOne(Chunk(0, size, 0, None), 0, size);
    assert !Has([Chunk(0, size, 0, None)], 0);
  }

  lemma StillNothing(a: seq<Chunk>, b: seq<Chunk>)
    requires SameBytes(a, b) && forall x: nat :: !Has(a, x)
    ensures forall x: nat :: !Has(b, x)
  {
  }

  lemma SettledWired(size: nat, cs: seq<Chunk>, conn: ConnMap)
    requires Wired([], conn, Tight) && NoneAttached(conn) && Settled(cs)
    ensures Wired(cs, conn, Tight)
  {
  }

  lemma {:induction false} SafeIsHad(cs: seq<Chunk>, x: nat)
    ensures Safe(cs, x) ==> Has(cs, x)
    ensures NoHalves(cs) && NoneBusy(cs) && (forall c :: c in cs ==> c.received <= c.size) && Has(cs, x) ==> Safe(cs, x)
  {
    if cs != [] {
      SafeIsHad(cs[1..], x);
    }
  }

  /** Nothing that was received is lost. */
  ghost predicate Kept(a: seq<Chunk>, b: seq<Chunk>) {
    Got(a) <= Got(b) && (forall x: nat :: Has(a, x) ==> Has(b, x)) && SafeStays(a, b)
  }

  lemma KeptSafe(a: seq<Chunk>, b: seq<Chunk>)
    requires Kept(a, b)
    ensures SafeStays(a, b) && SafeStays(b, b)
  {
  }

  lemma SafeTrans(a: seq<Chunk>, b: seq<Chunk>, c: seq<Chunk>)
    requires SafeStays(a, b) && SafeStays(b, c)
    ensures SafeStays(a, c)
  {
  }

  /** The events that may write a record. */
  ghost predicate Saves(e: Event, env: Env) {
    env.saveOk && (e.Tick? || e.UserPauses? || e.SlotTaken? || !env.writeOk)
  }

  lemma SavesMeans(e: Event, env: Env)
    ensures Saves(e, env) <==> env.saveOk && (e.Tick? || e.UserPauses? || e.SlotTaken? || !env.writeOk)
  {
  }

  /** A record made from `cs` was written. */
  ghost predicate Wrote(d0: seq<byte>, d1: seq<byte>, size: nat, cs: seq<Chunk>, tlvs: seq<byte>) {
    && size < U32 && CompleteBytes(cs) < U32 && Saveable(cs)
    && exists paused :: d1 == WithState(d0, StatePacket(size, cs, paused, tlvs), size)
  }

  lemma IsWrote(d0: seq<byte>, d1: seq<byte>, size: nat, cs: seq<Chunk>, paused: bool, tlvs: seq<byte>)
    requires size < U32 && CompleteBytes(cs) < U32 && Saveable(cs)
    ensures d1 == WithState(d0, StatePacket(size, cs, paused, tlvs), size) ==> Wrote(d0, d1, size, cs, tlvs)
  {
    hide WithState, StatePacket, CompleteBytes, Saveable;
  }

  lemma WroteMeans(d0: seq<byte>, d1: seq<byte>, size: nat, cs: seq<Chunk>, tlvs: seq<byte>) returns (paused: bool)
    requires Wrote(d0, d1, size, cs, tlvs)
    ensures size < U32 && CompleteBytes(cs) < U32 && Saveable(cs)
    ensures d1 == WithState(d0, StatePacket(size, cs, paused, tlvs), size)
  {
    hide WithState, StatePacket, CompleteBytes, Saveable;
    paused :| d1 == WithState(d0, StatePacket(size, cs, paused, tlvs), size);
  }

  lemma SameKept(a: seq<Chunk>, b: seq<Chunk>)
    requires SameBytes(a, b)
    ensures Kept(a, b)
  {
  }

  lemma GainedKept(a: seq<Chunk>, b: seq<Chunk>, pos: nat, n: nat)
    requires Gained(a, b, pos, n)
    ensures Kept(a, b)
  {
  }

  lemma KeptRefl(cs: seq<Chunk>)
    ensures Kept(cs, cs)
  {
  }

  lemma KeptTrans(a: seq<Chunk>, b: seq<Chunk>, c: seq<Chunk>)
    requires Kept(a, b) && Kept(b, c)
    ensures Kept(a, c)
  {
  }

  lemma FewMeans(conn: ConnMap, max: nat)
    requires Few(conn, max)
    ensures max > 0 ==> |InState(conn, Transferring)| < max
  {
  }

  lemma FewBelow(conn: ConnMap, max: nat)
    requires |InState(conn, Transferring)| < max
    ensures Few(conn, max)
  {
  }

  lemma RejectedIsIdle(k: Conn)
    ensures k.Rejected().failCount == k.failCount + 1
    ensures !k.Rejected().Busy()
  {
  }

  lemma AcceptedKeeps(k: Conn, now: nat)
    ensures k.Accepted(now) == k.(queueNextTry := 0, failCount := 0, requestTime := now, state := Transferring)
  {
  }

  lemma UsefulNothing(cs: seq<Chunk>, s: Source, pos: nat)
    ensures Useful(cs, s, pos, 0) == 0
  {
  }

  lemma DoneIsIdle(k: Conn, n: nat, now: nat)
    ensures !k.Done(n, now).Busy() && k.(curr := k.curr + n).Done(0, now) == k.Done(n, now)
  {
  }

  lemma ReleasedAgain(m: ConnMap, s: Source, mid: Conn, k: Conn)
    requires s in m
    ensures Released(m[s := mid], s, k) == Released(m, s, k)
  {
    assert m[s := mid][s := k.(chunk := None)] == m[s := k.(chunk := None)];
    assert m[s := mid] - {s} == m - {s};
  }

  lemma CancelIsIdle(k: Conn, now: nat)
    ensures !k.Cancel(now).Busy()
  {
  }

  /** What the wiring says about the chunk an attached connection fetches. */
  lemma FetchFacts(cs: seq<Chunk>, size: nat, conn: ConnMap, i: nat, s: Source, n: nat, loose: bool)
    requires Tiles(cs, 0, size) && Wired(cs, conn, Ahead(s, n, loose)) && i < |cs| && cs[i].conn == Some(s)
    ensures s in conn && cs[i].received <= cs[i].size && cs[i].End() == cs[i].start + cs[i].size <= size
    ensures conn[s].chunkStart + conn[s].curr == cs[i].start + cs[i].received + n
    ensures cs[i].End() <= conn[s].chunkStart + conn[s].chunkSize
    ensures FetchEnd(cs, s) == cs[i].End()
    ensures Useful(cs, s, cs[i].start + cs[i].received, n) ==
        if n > cs[i].size - cs[i].received then cs[i].size - cs[i].received else n
  {
    assert cs[i] in cs && Fits(cs[i], conn, Ahead(s, n, loose));
    TilesBounds(cs, 0, size, cs[i]);
    FetchEndAt(cs, size, conn, Ahead(s, n, loose), i, s);
  }

  /** Where the chunk that `s` fetches ends. */
  function FetchEnd(cs: seq<Chunk>, s: Source): nat {
    if cs == [] then 0 else if cs[0].conn == Some(s) then cs[0].End() else FetchEnd(cs[1..], s)
  }

  lemma {:induction false} FetchEndFirst(cs: seq<Chunk>, i: nat, s: Source)
    requires i < |cs| && cs[i].conn == Some(s) && forall j :: 0 <= j < i ==> cs[j].conn != Some(s)
    ensures FetchEnd(cs, s) == cs[i].End()
  {
    if i > 0 {
      FetchEndFirst(cs[1..], i - 1, s);
    }
  }

  lemma FetchEndAt(cs: seq<Chunk>, size: nat, conn: ConnMap, slack: Slack, i: nat, s: Source)
    requires Tiles(cs, 0, size) && Wired(cs, conn, slack) && i < |cs| && cs[i].conn == Some(s)
    ensures FetchEnd(cs, s) == cs[i].End()
  {
    forall j | 0 <= j < i
      ensures cs[j].conn != Some(s)
    {
      if cs[j].conn == Some(s) {
        OneChunkEach(cs, size, conn, slack, j, i);
      }
    }
    FetchEndFirst(cs, i, s);
  }

  /** A connection that has got to `pos` may go on reading: its chunk is not
      complete, or it is and the request ends there as well. */
  ghost predicate StillWanted(cs: seq<Chunk>, s: Source, pos: nat, requestEnd: nat) {
    var end := FetchEnd(cs, s);
    pos < end || (pos == end && end == requestEnd)
  }

  lemma StillWantedMeans(cs: seq<Chunk>, s: Source, pos: nat, requestEnd: nat)
    ensures StillWanted(cs, s, pos, requestEnd) <==>
        pos < FetchEnd(cs, s) || (pos == FetchEnd(cs, s) && FetchEnd(cs, s) == requestEnd)
  {
  }

  /** How many of `n` bytes from `pos` on the chunk fetched by `s` can take. */
  ghost function Useful(cs: seq<Chunk>, s: Source, pos: nat, n: nat): nat {
    var end := FetchEnd(cs, s);
    if pos + n <= end then n else if pos <= end then end - pos else 0
  }

  lemma GainedNothing(a: seq<Chunk>, b: seq<Chunk>, pos: nat)
    requires SameBytes(a, b)
    ensures Gained(a, b, pos, 0)
  {
  }

  lemma GainedSame(a: seq<Chunk>, b: seq<Chunk>, c: seq<Chunk>, pos: nat, n: nat)
    requires Gained(a, b, pos, n) && SameBytes(b, c)
    ensures Gained(a, c, pos, n)
  {
  }

  lemma BlockyWrite(disk: seq<byte>, size: nat, pos: nat, data: seq<byte>)
    requires Blocky(disk, size) && pos + |data| <= size
    ensures Blocky(WriteAt(disk, pos, data), size)
  {
  }

  /** How far connection `s` is out of step after `extra` bytes its chunk had no
      use for. */
  ghost function Settling(c: Chunk, s: Source, extra: nat, loose: bool): Slack {
    if extra > 0 then Over(s, extra, loose)
    else if loose then Loose
    else if c.Complete() then Full(s) else Tight
  }

  lemma AddFew(conn: ConnMap, s: Source, max: nat)
    requires s !in conn && Few(conn, max)
    ensures Few(conn[s := NewConn], max)
  {
    assert InState(conn[s := NewConn], Transferring) == InState(conn, Transferring);
  }

  lemma AddWired(cs: seq<Chunk>, conn: ConnMap, conns: seq<Source>, s: Source, slack: Slack)
    requires Wired(cs, conn, slack) && Listed(conns, conn) && Ordered(conns, conn) && s !in conn
    ensures var m := conn[s := NewConn];
      && Wired(cs, m, slack) && Listed(conns, m - {s}) && Ordered(conns, m)
      && (NoneAttached(conn) ==> NoneAttached(m))
  {
    var m := conn[s := NewConn];
    assert m - {s} == conn;
    forall c | c in cs && c.conn.Some?
      ensures Fits(c, m, slack)
    {
      assert Fits(c, conn, slack);
    }
    forall t | t in m && m[t].chunk.Some?
      ensures HasChunk(cs, t, m[t].chunk.value)
    {
      assert HasChunk(cs, t, conn[t].chunk.value);
    }
    OrderedUnder(conns, conn, m);
  }

  lemma NoneBusyIf(cs: seq<Chunk>)
    requires forall c :: c in cs ==> c.Idle()
    ensures NoneBusy(cs)
  {
  }

  /** Writing the record behind the media part does not touch a received byte. */
  lemma SaveLayout(size: nat, received: nat, cs: seq<Chunk>, disk: seq<byte>, f: seq<byte>, packet: seq<byte>)
    requires Layout(size, received, cs, disk, f) && Blocky(disk, size)
    ensures Layout(size, received, cs, WithState(disk, packet, size), f) && Blocky(WithState(disk, packet, size), size)
  {
    hide WithState, Tiles, Got;
    WithStateFacts(disk, packet, size);
    var g := WithState(disk, packet, size);
    forall x: nat | Has(cs, x)
      ensures x < |g| && x < |f| && g[x] == f[x]
    {
    }
  }

  ghost predicate NoneBusy(cs: seq<Chunk>) {
    forall i :: 0 <= i < |cs| ==> cs[i].Idle()
  }

  /** Some byte has not been received yet. */
  ghost predicate Lacks(cs: seq<Chunk>, size: nat) {
    exists x: nat :: x < size && !Has(cs, x)
  }

  lemma LacksSame(a: seq<Chunk>, b: seq<Chunk>, size: nat)
    requires SameBytes(a, b)
    ensures Lacks(a, size) <==> Lacks(b, size)
  {
    if Lacks(a, size) {
      var x: nat :| x < size && !Has(a, x);
      assert !Has(b, x);
    }
  }

  /** The completion test looks at the first chunk only; that is enough. */
  lemma TestNotMissed(cs: seq<Chunk>, size: nat)
    requires Tiles(cs, 0, size) && cs != [] && size > 0 && !AnyStuck(cs)
    ensures !Lacks(cs, size) ==> Consolidate(cs) == [Chunk(0, size, size, None)]
  {
    if !Lacks(cs, size) {
      HasAllComplete(cs, 0, size);
      CompletionNotMissed(cs, size);
    }
  }

  lemma FirstIsAll(cs: seq<Chunk>, size: nat)
    requires Tiles(cs, 0, size) && cs != []
    ensures cs[0].received == size ==> !Lacks(cs, size)
  {
    if cs[0].received == size {
      assert forall x: nat :: x < size ==> cs[0].Holds(x);
    }
  }

  /** A chunk with bytes left to fetch lacks the next one. */
  lemma {:induction false} IncompleteLacks(cs: seq<Chunk>, from: nat, to: nat, c: Chunk)
    requires Tiles(cs, from, to) && c in cs && c.received < c.size
    ensures from <= c.start + c.received < to && !Has(cs, c.start + c.received)
  {
    var rest, x := cs[1..], c.start + c.received;
    TilesSpan(rest, cs[0].End(), to);
    if c == cs[0] {
      if Has(rest, x) {
        HasBound(rest, cs[0].End(), to, x);
      }
    } else {
      IncompleteLacks(rest, cs[0].End(), to, c);
    }
  }

  /** A list with something attached lacks a byte, or the attached chunk is stuck. */
  lemma AttachedLacks(cs: seq<Chunk>, size: nat, conn: ConnMap, slack: Slack, s: Source)
    requires Tiles(cs, 0, size) && Wired(cs, conn, slack) && s in conn && conn[s].chunk.Some?
    ensures Lacks(cs, size) || AnyStuck(cs)
  {
    assert HasChunk(cs, s, conn[s].chunk.value);
    var c :| c in cs && c.start == conn[s].chunk.value && c.conn == Some(s);
    if !c.Complete() {
      TilesBounds(cs, 0, size, c);
      IncompleteLacks(cs, 0, size, c);
    }
  }

  lemma HasAllComplete(cs: seq<Chunk>, from: nat, to: nat)
    requires Tiles(cs, from, to) && !AnyStuck(cs)
    requires forall x: nat :: from <= x < to ==> Has(cs, x)
    ensures AllComplete(cs)
  {
    forall i | 0 <= i < |cs|
      ensures cs[i].Idle() && cs[i].Complete()
    {
      var c := cs[i];
      assert c in cs;
      TilesBounds(cs, from, to, c);
      if c.received < c.size {
        IncompleteLacks(cs, from, to, c);
        assert false;
      }
    }
  }

  /** Detaching the chunk of `s` leaves the others stuck that were. */
  lemma StuckWithout(cs: seq<Chunk>, i: nat, s: Source)
    requires i < |cs| && cs[i].conn == Some(s)
    requires forall c :: c in cs[i := cs[i].(conn := None)] ==> c.conn != Some(s)
    ensures AnyStuck(cs[i := cs[i].(conn := None)]) <==> AnyStuckBut(cs, s)
  {
    var d := cs[i].(conn := None);
    if AnyStuck(cs[i := d]) {
      var c :| c in cs[i := d] && c.conn.Some? && c.Complete();
      UpdateMember(cs, i, d, c);
    }
    if AnyStuckBut(cs, s) {
      var c :| c in cs && c.conn.Some? && c.conn != Some(s) && c.Complete();
      UpdateMember(cs, i, d, c);
    }
  }

  lemma {:induction false} HasBound(cs: seq<Chunk>, from: nat, to: nat, x: nat)
    requires Tiles(cs, from, to) && Has(cs, x)
    ensures from <= x < to
  {
    TilesSpan(cs[1..], cs[0].End(), to);
    if !cs[0].Holds(x) {
      HasBound(cs[1..], cs[0].End(), to, x);
    }
  }

  /** Cutting the state record off the whole file. */
  lemma CutLayout(size: nat, received: nat, cs: seq<Chunk>, disk: seq<byte>, f: seq<byte>)
    requires Layout(size, received, cs, disk, f) && |disk| >= size && disk[..size] == f
    ensures Layout(size, received, cs, disk[..size], f) && Blocky(disk[..size], size)
  {
  }

  lemma TidyLayout(size: nat, received: nat, a: seq<Chunk>, b: seq<Chunk>, conn: ConnMap, disk: seq<byte>, f: seq<byte>)
    requires Layout(size, received, a, disk, f) && Wired(a, conn, Tight) && Same(b, a, 0, size) && SafeStays(a, b) &&
        size > 0
    ensures Layout(size, received, b, disk, f) && Wired(b, conn, Tight) && SameBytes(a, b) && b != []
  {
    SameLayout(size, received, a, b, disk, f);
    SameWired(a, b, conn, Tight);
  }

  /** The records after the request of `s` has ended with outcome `k`. */
  function Released(m: ConnMap, s: Source, k: Conn): ConnMap {
    if k.failCount < SourceMaxFail then m[s := k.(chunk := None)] else m - {s}
  }

  lemma ReleasedIs(m: ConnMap, s: Source, k: Conn)
    ensures Released(m, s, k) == if k.failCount < SourceMaxFail then m[s := k.(chunk := None)] else m - {s}
  {
  }

  /** While the download goes on, maintenance has at most begun new requests; when it
      is over, all connections are stopped. */
  ghost predicate Resumed(a: ConnMap, b: ConnMap, st: DownloadState, now: nat) {
    if st == Active then OnlyStarted(a, b, now) else b == Stopped(a, now)
  }

  lemma ResumedIf(a: ConnMap, b: ConnMap, st: DownloadState, now: nat)
    ensures (if st == Active then OnlyStarted(a, b, now) else b == Stopped(a, now)) ==> Resumed(a, b, st, now)
  {
  }

  lemma ResumedActive(a: ConnMap, b: ConnMap, st: DownloadState, now: nat)
    requires Resumed(a, b, st, now)
    ensures st == Active ==> OnlyStarted(a, b, now)
  {
  }

  /** The records of the connections other than `s` are as they were or those of
      requests just begun. */
  ghost predicate OthersStarted(a: ConnMap, b: ConnMap, s: Source, now: nat) {
    forall t :: t in b && t != s ==> t in a && (b[t] == a[t] || JustStarted(a[t], b[t], now))
  }

  lemma OthersReleased(a: ConnMap, s: Source, k: Conn, now: nat)
    ensures forall b, st :: Resumed(Released(a, s, k), b, st, now) && st == Active ==> OthersStarted(a, b, s, now)
  {
    hide JustStarted;
  }

  lemma OthersStill(a: ConnMap, s: Source, k: Conn, now: nat)
    ensures OthersStarted(a, a[s := k], s, now)
  {
  }

  lemma OthersFrom(a: ConnMap, m: ConnMap, b: ConnMap, s: Source, now: nat)
    requires s in m && m == a[s := m[s]]
    ensures OthersStarted(m, b, s, now) ==> OthersStarted(a, b, s, now)
  {
    hide JustStarted;
  }

  lemma CancelKeeps(k: Conn, now: nat)
    ensures k.Cancel(now).failCount == k.failCount && k.Cancel(now).queueNextTry == k.queueNextTry
    ensures k.Cancel(now).chunk == k.chunk && k.Cancel(now).state == Unused
  {
  }

  /** What one event may do to the records while the download goes on. */
  ghost predicate MovesOn(a: ConnMap, b: ConnMap, e: Event, now: nat) {
    forall s :: s in b ==> RecordMoves(a, s, b[s], e, now)
  }

  /** The record `k` of source `s` after event `e`. A request that nobody answered counts
      against the source, one that breaks off later does not; and a source is asked for
      something only if it was idle and not told to wait beyond `now`. */
  ghost predicate RecordMoves(a: ConnMap, s: Source, k: Conn, e: Event, now: nat) {
    if s !in a then e == Found(s) && k.failCount == 0
    else if e == Lost(s) && a[s].state == Connecting then
      k.failCount == a[s].failCount + 1 < 2 && (k.chunk.Some? ==> k.state == Connecting)
    else if e == Lost(s) && a[s].state == Transferring then
      k.failCount == a[s].failCount < 2 && (k.chunk.Some? ==> k.state == Connecting)
    else if e.Later? && e.s == s && a[s].state == Connecting then
      k.failCount == 0 && k.queueNextTry == now + e.retry && (e.retry > 0 ==> k.state == Queued && k.chunk.None?)
    else if OwnAnswer(a, s, e) then true
    else k == a[s] || Begun(a[s], k, now)
  }

  ghost predicate OwnAnswer(a: ConnMap, s: Source, e: Event)
    requires s in a
  {
    || (e.Answer? && e.s == s && a[s].state == Connecting)
    || (e.Data? && e.s == s && a[s].state == Transferring)
  }

  ghost predicate Begun(a: Conn, k: Conn, now: nat) {
    && a.chunk.None? && (a.state != Queued || a.queueNextTry <= now) && k.chunk.Some?
    && k == a.(chunk := k.chunk, state := Connecting, chunkStart := k.chunkStart, chunkSize := k.chunkSize, curr := 0,
               requestTime := 0)
  }

  lemma JustStartedIsBegun(a: Conn, k: Conn, now: nat)
    ensures JustStarted(a, k, now) ==> Begun(a, k, now)
  {
  }

  /** An event that does not apply. */
  lemma MovesNone(a: ConnMap, e: Event, now: nat)
    ensures (e.Lost? ==> e.s !in a || !a[e.s].Busy()) && (e.Later? ==> e.s !in a || a[e.s].state != Connecting) ==>
        MovesOn(a, a, e, now)
  {
    hide Begun;
  }

  lemma MovesOwn(a: ConnMap, b: ConnMap, e: Event, now: nat)
    requires e.Data? || e.Answer?
    requires e.s in a && a[e.s].state == if e.Data? then Transferring else Connecting
    ensures OthersStarted(a, b, e.s, now) ==> MovesOn(a, b, e, now)
  {
    hide JustStarted, Begun;
    forall t | t in b && t in a
      ensures JustStarted(a[t], b[t], now) ==> Begun(a[t], b[t], now)
    {
      JustStartedIsBegun(a[t], b[t], now);
    }
  }

  lemma MovesTick(a: ConnMap, b: ConnMap, now: nat)
    ensures OnlyStarted(a, b, now) ==> MovesOn(a, b, Tick, now)
  {
    hide JustStarted, Begun;
    forall t | t in b && t in a
      ensures JustStarted(a[t], b[t], now) ==> Begun(a[t], b[t], now)
    {
      JustStartedIsBegun(a[t], b[t], now);
    }
  }

  lemma MovesFound(a: ConnMap, b: ConnMap, s: Source, now: nat)
    ensures s in a && b == a ==> MovesOn(a, b, Found(s), now)
    ensures s !in a && OnlyStarted(a[s := NewConn], b, now) ==> MovesOn(a, b, Found(s), now)
  {
    hide JustStarted, Begun;
    var m := a[s := NewConn];
    forall t | t in b && t in m
      ensures JustStarted(m[t], b[t], now) ==> Begun(m[t], b[t], now)
      ensures Begun(m[t], b[t], now) ==> b[t].failCount == m[t].failCount
    {
      JustStartedIsBegun(m[t], b[t], now);
      BegunKeeps(m[t], b[t], now);
    }
  }

  lemma BegunKeeps(a: Conn, k: Conn, now: nat)
    ensures Begun(a, k, now) ==> k.failCount == a.failCount && k.state == Connecting && k.queueNextTry == a.queueNextTry
  {
  }

  lemma MovesLost(a: ConnMap, b: ConnMap, s: Source, now: nat)
    requires s in a && a[s].Busy()
    ensures Resumed(Released(a, s, a[s].Lost()), b, Active, now) ==> MovesOn(a, b, Lost(s), now)
  {
    var k := a[s].Lost();
    assert k.failCount == a[s].failCount + if a[s].state == Connecting then 1 else 0;
    var m := Released(a, s, k);
    hide JustStarted, Begun, Conn.Lost;
    forall t | t in b && t in m
      ensures JustStarted(m[t], b[t], now) ==> Begun(m[t], b[t], now)
      ensures Begun(m[t], b[t], now) ==> b[t].failCount == m[t].failCount && b[t].state == Connecting
    {
      JustStartedIsBegun(m[t], b[t], now);
      BegunKeeps(m[t], b[t], now);
    }
  }

  lemma MovesLater(a: ConnMap, b: ConnMap, s: Source, retry: nat, now: nat)
    requires s in a && a[s].state == Connecting
    ensures Resumed(Released(a, s, a[s].PutOff(now + retry)), b, Active, now) ==> MovesOn(a, b, Later(s, retry), now)
  {
    var k := a[s].PutOff(now + retry);
    assert k.failCount == 0 && k.queueNextTry == now + retry && k.state == Queued;
    var m := Released(a, s, k);
    hide Conn.PutOff;
    forall t | t in b && t in m
      ensures JustStarted(m[t], b[t], now) ==> Begun(m[t], b[t], now)
      ensures Begun(m[t], b[t], now) ==> b[t].failCount == m[t].failCount && b[t].queueNextTry == m[t].queueNextTry
    {
      JustStartedIsBegun(m[t], b[t], now);
      BegunKeeps(m[t], b[t], now);
    }
    hide JustStarted;
  }

  /** Every record is as it was or that of a request just begun, on a connection that
      was idle and might be used. */
  ghost predicate OnlyStarted(a: ConnMap, b: ConnMap, now: nat) {
    forall s :: s in b ==> s in a && (b[s] == a[s] || JustStarted(a[s], b[s], now))
  }

  ghost predicate JustStarted(a: Conn, b: Conn, now: nat) {
    && a.chunk.None? && a.Eligible(now)
    && b.chunk.Some? && b == a.Started(b.chunkStart, b.chunkSize).(chunk := b.chunk)
  }

  lemma NoneStarted(m: ConnMap, now: nat)
    ensures OnlyStarted(m, m, now)
  {
  }

  lemma StartedOne(a: ConnMap, m: ConnMap, m': ConnMap, s: Source, now: nat)
    requires OnlyStarted(a, m, now) && s in m && m[s].chunk.None? && m[s].Eligible(now)
    requires s in m' && m' == m[s := m'[s]] && m'[s].chunk.Some?
    requires m'[s] == m[s].Started(m'[s].chunkStart, m'[s].chunkSize).(chunk := m'[s].chunk)
    ensures OnlyStarted(a, m', now)
  {
  }

  lemma StartedDrop(a: ConnMap, m: ConnMap, s: Source, now: nat)
    requires OnlyStarted(a, m, now)
    ensures OnlyStarted(a, m - {s}, now)
  {
  }

  lemma StartedTwice(a: ConnMap, b: ConnMap, c: ConnMap, now: nat)
    requires OnlyStarted(a, b, now) && OnlyStarted(b, c, now)
    ensures OnlyStarted(a, c, now)
  {
  }

  /** The list is still in its first order (`a` are the records it began with), from
      position `at` on nothing has changed, and nothing in use was given up without
      reason. */
  ghost predicate InTurn(a: ConnMap, conns: seq<Source>, m: ConnMap, at: nat, now: nat) {
    && Ordered(conns, a)
    && (forall k :: 0 <= k < |conns| ==> conns[k] in a)
    && (forall k :: at <= k < |conns| ==> conns[k] in m && m[conns[k]] == a[conns[k]])
    && Worthwhile(a, m, now)
  }

  /** Of the connections that could be used none that is left over is faster than one
      that was started. */
  ghost predicate FastestFirst(a: ConnMap, m: ConnMap, now: nat) {
    forall s, t :: s in m && t in m && s in a && t in a && a[s].chunk.None? && m[s].chunk.Some? && !Spent(m[t], now)
      ==> a[t].HistSpeed() <= a[s].HistSpeed()
  }

  /** A connection in use is given up only for one that is faster by more than 1024
      bytes a second, and none in use that stays was slower. */
  ghost predicate Worthwhile(a: ConnMap, m: ConnMap, now: nat) {
    forall t :: t in a && t !in m && a[t].chunk.Some? ==>
      && (exists s :: s in a && !Spent(a[s], now) && a[t].Speed(now) + 1024 < a[s].Speed(now))
      && (forall u :: u in a && u in m && a[u].chunk.Some? ==> a[t].Speed(now) <= a[u].Speed(now))
  }

  /** The connection at `j` is the slowest in use behind `li`, and that at `li` would be
      worth replacing it. */
  ghost predicate SlowAndWorse(conns: seq<Source>, conn: ConnMap, li: nat, j: nat, now: nat) {
    && li < j < |conns| && conns[li] in conn && conns[j] in conn
    && conn[conns[j]].Speed(now) + 1024 < conn[conns[li]].Speed(now)
    && forall k :: li < k < |conns| && conns[k] in conn && conn[conns[k]].chunk.Some? ==>
        conn[conns[j]].Speed(now) <= conn[conns[k]].Speed(now)
  }

  /** No source that was unused and can be reached has been dropped. */
  ghost predicate Spared(a: ConnMap, m: ConnMap, connects: set<Source>) {
    forall t :: t in a && a[t].chunk.None? && t in connects ==> t in m
  }

  lemma SparedAll(a: ConnMap, m: ConnMap, connects: set<Source>)
    ensures a.Keys * connects <= m.Keys ==> Spared(a, m, connects)
  {
  }

  lemma SparedStep(a: ConnMap, m: ConnMap, m': ConnMap, s: Source, connects: set<Source>)
    requires s in m' && m' == m[s := m'[s]]
    ensures Spared(a, m, connects) ==> Spared(a, m', connects)
  {
  }

  lemma SparedDrop(a: ConnMap, m: ConnMap, s: Source, connects: set<Source>)
    requires s !in connects
    ensures Spared(a, m, connects) ==> Spared(a, m - {s}, connects)
  {
  }

  lemma SparedEvict(a: ConnMap, l: seq<Source>, m: ConnMap, at: nat, j: nat, now: nat, connects: set<Source>)
    requires InTurn(a, l, m, at, now) && at <= j < |l| && l[j] in m && m[l[j]].chunk.Some?
    ensures Spared(a, m, connects) ==> Spared(a, m - {l[j]}, connects)
  {
    hide Ordered, Worthwhile;
  }

  /** The fastest unused connection is not worth replacing one that was in use before:
      none of those is slower by more than 1024 bytes a second. Speeds from 0xFFFF_FFFF
      on do not count as slow. */
  ghost predicate NoGain(a: ConnMap, m: ConnMap, now: nat) {
    exists s :: s in m && !Spent(m[s], now) && NotWorse(a, m, s, now)
  }

  ghost predicate NotWorse(a: ConnMap, m: ConnMap, s: Source, now: nat)
    requires s in m
  {
    && (forall t :: t in m && !Spent(m[t], now) ==> m[t].HistSpeed() <= m[s].HistSpeed())
    && (forall u :: u in a && u in m && a[u].chunk.Some? ==>
          m[s].Speed(now) <= m[u].Speed(now) + 1024 || m[u].Speed(now) >= 0xFFFF_FFFF)
  }

  lemma NoGainIf(a: ConnMap, l: seq<Source>, m: ConnMap, li: nat, j: nat, speed: nat, now: nat)
    requires Listed(l, m) && li < |l| && l[li] in m && m[l[li]].chunk.None? && m[l[li]].Eligible(now)
    requires InTurn(a, l, m, li, now) && Tried(l, m, li, now)
    requires j == 0 ==> speed == 0xFFFF_FFFF
    requires j == 0 || speed + 1024 >= m[l[li]].Speed(now)
    requires forall k :: li < k < |l| && l[k] in m && m[l[k]].chunk.Some? ==> speed <= m[l[k]].Speed(now)
    ensures NoGain(a, m, now)
  {
    hide Conn.Speed, Conn.HistSpeed, Ordered, Worthwhile;
    var s := l[li];
    forall t | t in m && !Spent(m[t], now)
      ensures m[t].HistSpeed() <= m[s].HistSpeed()
    {
      var k :| 0 <= k < |l| && l[k] == t;
      FasterFirst(a, l, li, k);
    }
    forall u | u in a && u in m && a[u].chunk.Some?
      ensures m[s].Speed(now) <= m[u].Speed(now) + 1024 || m[u].Speed(now) >= 0xFFFF_FFFF
    {
      var k :| 0 <= k < |l| && l[k] == u;
      UsedBehind(a, l, li, k);
    }
    assert NotWorse(a, m, s, now);
  }

  lemma FasterFirst(a: ConnMap, l: seq<Source>, i: nat, j: nat)
    requires Ordered(l, a) && i <= j < |l| && l[i] in a && l[j] in a && a[l[i]].chunk.None? && a[l[j]].chunk.None?
    ensures a[l[j]].HistSpeed() <= a[l[i]].HistSpeed()
  {
    hide Conn.HistSpeed;
    if i < j {
      assert RankCmp(KeyOf(a)(l[i]), KeyOf(a)(l[j])) <= 0;
    }
  }

  /** Behind a connection in use there are only others in use. */
  lemma TriedRest(conns: seq<Source>, conn: ConnMap, at: nat, now: nat)
    requires UsedLast(conns, conn, at) && Tried(conns, conn, at, now)
    requires at < |conns| && conns[at] in conn && conn[conns[at]].chunk.Some?
    ensures Tried(conns, conn, |conns|, now)
  {
  }

  lemma NotAllTried(conns: seq<Source>, conn: ConnMap, at: nat, now: nat)
    requires at < |conns| && conns[at] in conn && conn[conns[at]].chunk.None? && conn[conns[at]].Eligible(now)
    ensures !Tried(conns, conn, |conns|, now)
  {
  }

  lemma SlowAndWorseIs(conns: seq<Source>, conn: ConnMap, li: nat, j: nat, now: nat)
    requires li < j < |conns| && conns[li] in conn && conns[j] in conn
    requires conn[conns[j]].Speed(now) + 1024 < conn[conns[li]].Speed(now)
    requires forall k :: li < k < |conns| && conns[k] in conn && conn[conns[k]].chunk.Some? ==>
        conn[conns[j]].Speed(now) <= conn[conns[k]].Speed(now)
    ensures SlowAndWorse(conns, conn, li, j, now)
  {
  }

  lemma TurnFirst(conns: seq<Source>, conn: ConnMap, now: nat)
    requires Listed(conns, conn) && Ordered(conns, conn)
    ensures InTurn(conn, conns, conn, 0, now) && Worthwhile(conn, conn, now)
  {
    hide Ordered;
    forall k | 0 <= k < |conns|
      ensures conns[k] in conn
    {
      ListedAt(conns, conn, k);
    }
  }

  lemma TurnStep(a: ConnMap, l: seq<Source>, m: ConnMap, m': ConnMap, at: nat, now: nat)
    requires at < |l| && Listed(l, m) && InTurn(a, l, m, at, now)
    requires l[at] in m && l[at] in m' && m' == m[l[at] := m'[l[at]]]
    ensures InTurn(a, l, m', at + 1, now)
  {
    hide Ordered;
    hide Conn.Speed, Conn.HistSpeed;
    assert m'.Keys == m.Keys;
  }

  /** A connection that is not in use is dropped. */
  lemma TurnDrop(a: ConnMap, l: seq<Source>, m: ConnMap, at: nat, k: nat, now: nat)
    requires at <= k < |l| && Listed(l, m) && InTurn(a, l, m, at, now) && l[k] in m && m[l[k]].chunk.None?
    ensures InTurn(a, Without(l, k), m - {l[k]}, at, now)
  {
    hide Conn.Speed, Conn.HistSpeed;
    WithoutTurn(a, l, m, at, k);
  }

  /** In the first order those in use come behind those that are not. */
  lemma UsedBehind(a: ConnMap, l: seq<Source>, i: nat, j: nat)
    requires Ordered(l, a) && i < |l| && j < |l| && l[i] in a && l[j] in a && a[l[i]].chunk.None? && a[l[j]].chunk.Some?
    ensures i < j
  {
    var key := KeyOf(a);
    assert !key(l[i]).used && key(l[j]).used;
  }

  /** The slowest connection in use is given up. */
  lemma TurnEvict(a: ConnMap, l: seq<Source>, m: ConnMap, at: nat, j: nat, now: nat)
    requires Listed(l, m) && InTurn(a, l, m, at, now) && SlowAndWorse(l, m, at, j, now)
    requires m[l[at]].chunk.None? && m[l[at]].Eligible(now)
    ensures InTurn(a, Without(l, j), m - {l[j]}, at, now)
  {
    hide Conn.Speed, Conn.HistSpeed;
    WithoutTurn(a, l, m, at, j);
    forall u | u in a && u in m && a[u].chunk.Some?
      ensures a[l[j]].Speed(now) <= a[u].Speed(now)
    {
      var k :| 0 <= k < |l| && l[k] == u;
      UsedBehind(a, l, at, k);
    }
  }

  lemma WithoutTurn(a: ConnMap, l: seq<Source>, m: ConnMap, at: nat, k: nat)
    requires at <= k < |l| && Listed(l, m) && Ordered(l, a)
    requires (forall i :: 0 <= i < |l| ==> l[i] in a) && forall i :: at <= i < |l| ==> l[i] in m && m[l[i]] == a[l[i]]
    ensures var t, m' := Without(l, k), m - {l[k]};
      && Ordered(t, a) && (forall i :: 0 <= i < |t| ==> t[i] in a)
      && forall i :: at <= i < |t| ==> t[i] in m' && m'[t[i]] == a[t[i]]
  {
    WithoutSorted(l, KeyOf(a), RankCmp, k);
    forall i | 0 <= i < |Without(l, k)|
      ensures Without(l, k)[i] in a
      ensures at <= i ==> Without(l, k)[i] in m - {l[k]} && m[Without(l, k)[i]] == a[Without(l, k)[i]]
    {
      WithoutAt(l, k, i);
    }
  }

  lemma TurnFastest(a: ConnMap, conns: seq<Source>, m: ConnMap, at: nat, now: nat)
    requires Listed(conns, m) && InTurn(a, conns, m, at, now) && Tried(conns, m, at, now)
    ensures FastestFirst(a, m, now) && Worthwhile(a, m, now)
  {
    forall s, t | s in m && t in m && s in a && t in a && a[s].chunk.None? && m[s].chunk.Some? && !Spent(m[t], now)
      ensures a[t].HistSpeed() <= a[s].HistSpeed()
    {
      var i :| 0 <= i < |conns| && conns[i] == s;
      var j :| 0 <= j < |conns| && conns[j] == t;
      assert i < at <= j;
      assert RankCmp(KeyOf(a)(conns[i]), KeyOf(a)(conns[j])) <= 0;
    }
  }

  lemma NothingToTry(conns: seq<Source>, conn: ConnMap, now: nat)
    requires conns == []
    ensures Tried(conns, conn, |conns|, now)
  {
  }

  lemma TriedSorted(a: seq<Source>, b: seq<Source>, conn: ConnMap, now: nat)
    requires Listed(a, conn) && Listed(b, conn)
    ensures Tried(a, conn, |a|, now) ==> Tried(b, conn, |b|, now)
  {
    if Tried(a, conn, |a|, now) {
      forall k | 0 <= k < |b| && b[k] in conn
        ensures Spent(conn[b[k]], now)
      {
        assert b[k] in b && b[k] in a;
        var j :| 0 <= j < |a| && a[j] == b[k];
      }
    }
  }

  lemma BigPiecesAround(a: seq<Chunk>, b: seq<Chunk>, c: seq<Chunk>, d: seq<Chunk>)
    requires SameShape(a, b) && BigPieces(b, c) && SameShape(c, d)
    ensures BigPieces(a, d)
  {
    forall e | e in d
      ensures e.received <= e.size && (e.size - e.received >= MinChunkSize || Known(e, a))
    {
      var i :| 0 <= i < |d| && d[i] == e;
      assert c[i].(conn := None) == d[i].(conn := None) && c[i] in c;
      if e.size - e.received < MinChunkSize {
        assert Known(c[i], b);
        var f :| f in b && f.start == e.start && f.size == e.size;
        var j :| 0 <= j < |b| && b[j] == f;
        assert a[j].(conn := None) == b[j].(conn := None) && a[j] in a;
      }
    }
  }

  lemma AttachedIsBusy(cs: seq<Chunk>, conn: ConnMap, s: Source)
    requires Wired(cs, conn, Tight) && s in conn && conn[s].chunk.Some?
    ensures conn[s].Busy()
  {
  }

  lemma FetchedIncomplete(cs: seq<Chunk>, conn: ConnMap, i: nat)
    requires Wired(cs, conn, Tight) && i < |cs| && cs[i].conn.Some?
    ensures !cs[i].Complete()
  {
    assert cs[i] in cs;
    assert Fits(cs[i], conn, Tight);
  }

  lemma ListedDistinct(conns: seq<Source>, conn: ConnMap, i: nat, j: nat)
    requires Listed(conns, conn) && i < j < |conns|
    ensures conns[i] != conns[j]
  {
  }

  lemma TriedDropLater(l: seq<Source>, m: ConnMap, at: nat, k: nat, now: nat)
    requires at <= k < |l| && Tried(l, m, at, now)
    ensures Tried(Without(l, k), m - {l[k]}, at, now)
  {
    forall i | 0 <= i < at && i < |Without(l, k)|
      ensures Without(l, k)[i] == l[i]
    {
      WithoutAt(l, k, i);
    }
  }

  lemma BusyAgain(cs: seq<Chunk>, i: nat, s: Source)
    requires i < |cs|
    ensures AllBusy(cs) ==> AllBusy(cs[i := cs[i].(conn := None)][i := cs[i].(conn := Some(s))])
  {
  }

  lemma ShapeAgain(cs: seq<Chunk>, i: nat, s: Source)
    requires i < |cs|
    ensures SameShape(cs, cs[i := cs[i].(conn := None)][i := cs[i].(conn := Some(s))])
  {
  }

  lemma NoneIsIdle(cs: seq<Chunk>, conn: ConnMap, s: Source, slack: Slack)
    requires Wired(cs, conn, slack) && s in conn && conn[s].chunk.None?
    ensures !conn[s].Busy()
  {
  }

  lemma SameBytesRefl(cs: seq<Chunk>)
    ensures SameBytes(cs, cs)
  {
  }

  lemma SameBytesTrans(a: seq<Chunk>, b: seq<Chunk>, c: seq<Chunk>)
    requires SameBytes(a, b) && SameBytes(b, c)
    ensures SameBytes(a, c)
  {
  }

  /** The chunk covers what some chunk of `old` covered. */
  ghost predicate Known(c: Chunk, cs: seq<Chunk>) {
    exists d :: d in cs && d.start == c.start && d.size == c.size
  }

  /** Every chunk that a split made or cut short has at least
      AS_DOWNLOAD_MIN_CHUNK_SIZE bytes to fetch. */
  ghost predicate BigPieces(a: seq<Chunk>, b: seq<Chunk>) {
    forall c :: c in b ==> c.received <= c.size && (c.size - c.received >= MinChunkSize || Known(c, a))
  }

  lemma BigPiecesRefl(cs: seq<Chunk>)
    ensures (forall c :: c in cs ==> c.received <= c.size) ==> BigPieces(cs, cs)
  {
    forall c | c in cs
      ensures Known(c, cs)
    {
      assert c in cs && c.start == c.start && c.size == c.size;
    }
  }

  lemma HalfOf(remaining: nat)
    requires remaining > MinChunkSize * 2
    ensures MinChunkSize <= remaining / 2 <= remaining - remaining / 2 && remaining - remaining / 2 >= MinChunkSize
    ensures 0 < remaining / 2 < remaining
  {
  }

  lemma SplitBig(a: seq<Chunk>, b: seq<Chunk>, i: nat, n: nat, s: Source)
    requires BigPieces(a, b) && i < |b| && b[i].received <= b[i].size && n <= b[i].size - b[i].received
    requires n >= MinChunkSize && b[i].size - b[i].received - n >= MinChunkSize
    ensures BigPieces(a, SplitOff(b, i, n, s))
    ensures AllBusy(b) ==> AllBusy(SplitOff(b, i, n, s))
  {
    var t := SplitOff(b, i, n, s);
    forall c | c in t
      ensures c.received <= c.size && (c.size - c.received >= MinChunkSize || Known(c, a))
    {
      SplitMember(b, i, n, s, c);
    }
    if AllBusy(b) {
      forall k | 0 <= k < |t|
        ensures t[k].conn.Some? || t[k].Complete()
      {
        if k == i {
          assert b[i].conn.Some?;
        } else if k > i + 1 {
          assert t[k] == b[k - 1];
        }
      }
    }
  }

  /** No chunk is worth splitting. */
  ghost predicate NoneLarge(cs: seq<Chunk>) {
    forall c :: c in cs ==> c.size - c.received <= 2 * 131072
  }

  lemma NoneLargeIf(cs: seq<Chunk>, remaining: nat)
    requires remaining <= MinChunkSize * 2 && forall c :: c in cs ==> c.size - c.received <= remaining
    ensures NoneLarge(cs)
  {
  }

  lemma NoneLargeShape(a: seq<Chunk>, b: seq<Chunk>)
    requires SameShape(a, b)
    ensures NoneLarge(a) ==> NoneLarge(b)
  {
    forall c | NoneLarge(a) && c in b
      ensures c.size - c.received <= 2 * 131072
    {
      var i :| 0 <= i < |b| && b[i] == c;
      assert a[i].(conn := None) == b[i].(conn := None) && a[i] in a;
    }
  }

  /** A chunk with the most bytes left to fetch, more than 2 * 131072, has lost the last
      half of them, rounded down, to a new chunk right behind it. */
  ghost predicate HalfStep(a: seq<Chunk>, b: seq<Chunk>) {
    exists i :: 0 <= i < |a| && HalvedAt(a, b, i)
  }

  ghost predicate HalvedAt(a: seq<Chunk>, b: seq<Chunk>, i: nat)
    requires i < |a|
  {
    var left := a[i].size - a[i].received;
    && left > 2 * 131072
    && (forall c :: c in a ==> c.size - c.received <= left)
    && |b| == |a| + 1
    && b[i].start == a[i].start && b[i].received == a[i].received && b[i].size == a[i].size - left / 2
    && b[i + 1].start == a[i].start + a[i].size - left / 2 && b[i + 1].size == left / 2 && b[i + 1].received == 0
    && SameShape(a[..i], b[..i]) && SameShape(a[i + 1..], b[i + 2..])
  }

  /** `b` comes from `a` by `n` such cuts. */
  ghost predicate HalvedBy(a: seq<Chunk>, b: seq<Chunk>, n: nat)
    decreases n
  {
    if n == 0 then SameShape(a, b) else exists m :: HalvedBy(a, m, n - 1) && HalfStep(m, b)
  }

  ghost predicate Halved(a: seq<Chunk>, b: seq<Chunk>) { |a| <= |b| && HalvedBy(a, b, |b| - |a|) }

  lemma HalvedNone(a: seq<Chunk>, b: seq<Chunk>)
    ensures SameShape(a, a) && Halved(a, a)
    ensures SameShape(a, b) ==> Halved(a, b)
  {
  }

  lemma IsHalfStep(a: seq<Chunk>, i: nat, s: Source)
    requires i < |a| && a[i].received <= a[i].size && a[i].size - a[i].received > MinChunkSize * 2
    requires forall c :: c in a ==> c.size - c.received <= a[i].size - a[i].received
    ensures HalfStep(a, SplitOff(a, i, (a[i].size - a[i].received) / 2, s))
  {
    var b := SplitOff(a, i, (a[i].size - a[i].received) / 2, s);
    assert a[..i] == b[..i] && a[i + 1..] == b[i + 2..];
    assert HalvedAt(a, b, i);
  }

  lemma HalfStepLength(a: seq<Chunk>, b: seq<Chunk>)
    requires HalfStep(a, b)
    ensures |b| == |a| + 1
  {
  }

  lemma HalvedOnce(a: seq<Chunk>, b: seq<Chunk>, c: seq<Chunk>)
    requires Halved(a, b) && HalfStep(b, c)
    ensures Halved(a, c)
  {
    HalfStepLength(b, c);
    hide HalfStep, SameShape;
    assert HalvedBy(a, b, |c| - |a| - 1);
  }

  lemma HalvedShape(a: seq<Chunk>, b: seq<Chunk>, c: seq<Chunk>)
    requires Halved(a, b) && SameShape(b, c)
    ensures Halved(a, c)
  {
    var n := |b| - |a|;
    ShapeLength(b, c);
    hide SameShape, HalfStep;
    if n > 0 {
      var m :| HalvedBy(a, m, n - 1) && HalfStep(m, b);
      HalfStepShape(m, b, c);
    } else {
      ShapeTrans(a, b, c);
    }
  }

  lemma HalfStepShape(a: seq<Chunk>, b: seq<Chunk>, c: seq<Chunk>)
    requires HalfStep(a, b) && SameShape(b, c)
    ensures HalfStep(a, c)
  {
    var i :| 0 <= i < |a| && HalvedAt(a, b, i);
    assert b[i].(conn := None) == c[i].(conn := None);
    assert b[i + 1].(conn := None) == c[i + 1].(conn := None);
    assert SameShape(b[..i], c[..i]) && SameShape(b[i + 2..], c[i + 2..]);
    ShapeTrans(a[..i], b[..i], c[..i]);
    ShapeTrans(a[i + 1..], b[i + 2..], c[i + 2..]);
    assert HalvedAt(a, c, i);
  }

  lemma HalvedAround(a: seq<Chunk>, b: seq<Chunk>, c: seq<Chunk>)
    requires SameShape(a, b) && Halved(b, c)
    ensures Halved(a, c)
  {
    HalvedByAround(a, b, c, |c| - |b|);
  }

  lemma {:induction false} HalvedByAround(a: seq<Chunk>, b: seq<Chunk>, c: seq<Chunk>, n: nat)
    requires SameShape(a, b) && HalvedBy(b, c, n)
    ensures HalvedBy(a, c, n)
    decreases n
  {
    hide SameShape, HalfStep;
    if n == 0 {
      ShapeTrans(a, b, c);
    } else {
      var m :| HalvedBy(b, m, n - 1) && HalfStep(m, c);
      HalvedByAround(a, b, m, n - 1);
    }
  }

  /** Every chunk is being fetched or complete. */
  ghost predicate AllBusy(cs: seq<Chunk>) { BusyUpTo(cs, |cs|) }

  ghost predicate BusyUpTo(cs: seq<Chunk>, n: nat) {
    forall i :: 0 <= i < n && i < |cs| ==> cs[i].conn.Some? || cs[i].Complete()
  }

  /** No connection before position `at` could still be used. */
  ghost predicate Tried(conns: seq<Source>, conn: ConnMap, at: nat, now: nat) {
    forall k :: 0 <= k < at && k < |conns| && conns[k] in conn ==> Spent(conn[conns[k]], now)
  }

  /** In use, or told to come back later than `now`. */
  ghost predicate Spent(k: Conn, now: nat) { k.chunk.Some? || (k.state == Queued && k.queueNextTry > now) }

  lemma SameShapeRefl(cs: seq<Chunk>)
    ensures SameShape(cs, cs)
  {
  }

  lemma ShapeLength(a: seq<Chunk>, b: seq<Chunk>)
    requires SameShape(a, b)
    ensures |a| == |b|
  {
  }

  lemma TriedNone(conns: seq<Source>, conn: ConnMap, now: nat)
    ensures Tried(conns, conn, 0, now)
  {
  }

  lemma UsedLastStep(l: seq<Source>, m: ConnMap, m': ConnMap, k: nat, s: Source)
    requires k < |l| && l[k] == s && Listed(l, m) && UsedLast(l, m, k)
    requires m' == m || (s in m && s in m' && m' == m[s := m'[s]])
    ensures UsedLast(l, m', k + 1)
  {
  }

  lemma TriedStep(l: seq<Source>, m: ConnMap, m': ConnMap, k: nat, s: Source, now: nat)
    requires k < |l| && l[k] == s && Listed(l, m) && Tried(l, m, k, now) && s in m
    requires s in m' && m' == m[s := m'[s]] && (m'[s].chunk.Some? || !m'[s].Eligible(now))
    ensures Tried(l, m', k + 1, now)
  {
  }

  lemma UsedLastDrop(l: seq<Source>, m: ConnMap, at: nat, k: nat)
    requires at <= k < |l| && Listed(l, m) && UsedLast(l, m, at)
    ensures UsedLast(Without(l, k), m - {l[k]}, at)
  {
    var t, m' := Without(l, k), m - {l[k]};
    forall i, j | at <= i < j < |t| && t[i] in m' && t[j] in m' && m'[t[i]].chunk.Some?
      ensures m'[t[j]].chunk.Some?
    {
      WithoutAt(l, k, i);
      WithoutAt(l, k, j);
    }
  }

  lemma TriedDrop(l: seq<Source>, m: ConnMap, k: nat, now: nat)
    requires k < |l| && Tried(l, m, k, now)
    ensures Tried(Without(l, k), m - {l[k]}, k, now) && |Without(l, k)| == |l| - 1
  {
  }

  lemma BusyNone(cs: seq<Chunk>)
    ensures BusyUpTo(cs, 0)
  {
  }

  lemma BusyNext(a: seq<Chunk>, b: seq<Chunk>, i: nat)
    requires i < |a| && BusyUpTo(a, i)
    requires (a == b && (a[i].conn.Some? || a[i].received == a[i].size)) ||
        exists s :: b == a[i := a[i].(conn := Some(s))]
    ensures BusyUpTo(b, i + 1)
  {
  }

  lemma BusyAll(cs: seq<Chunk>, n: nat)
    requires BusyUpTo(cs, n) && n == |cs|
    ensures AllBusy(cs)
  {
  }

  lemma IdleIsEmpty(cs: seq<Chunk>, i: nat)
    requires NoHalves(cs) && i < |cs| && cs[i].conn.None? && cs[i].received != cs[i].size
    ensures cs[i].received < cs[i].size ==> cs[i].received == 0
  {
  }

  lemma IdleMeaning(c: Chunk)
    ensures c.Idle() <==> c.conn.None?
    ensures c.Complete() <==> c.received == c.size
  {
  }

  lemma AttachKeepsNoHalves(a: seq<Chunk>, b: seq<Chunk>, i: nat)
    requires NoHalves(a) && i < |a| && exists s :: b == a[i := a[i].(conn := Some(s))]
    ensures NoHalves(b)
  {
  }

  /** Members of the first `i` connections in state `st`. */
  ghost function InPrefix(conns: seq<Source>, conn: ConnMap, i: nat, st: ConnState): set<Source>
    requires i <= |conns|
  {
    set s | s in conns[..i] && s in conn && conn[s].state == st
  }

  lemma CountPrefixStarts(conns: seq<Source>, conn: ConnMap)
    ensures forall st :: InPrefix(conns, conn, 0, st) == {}
  {
  }

  lemma CountPrefixNext(conns: seq<Source>, conn: ConnMap, i: nat)
    requires Listed(conns, conn) && i < |conns|
    ensures conns[i] in conn
    ensures forall st ::
      |InPrefix(conns, conn, i + 1, st)| == |InPrefix(conns, conn, i, st)| + if conn[conns[i]].state == st then 1 else 0
  {
    var s := conns[i];
    assert s in conns;
    assert conns[..i + 1] == conns[..i] + [s];
    assert s !in conns[..i];
    forall st
      ensures |InPrefix(conns, conn, i + 1, st)| == |InPrefix(conns, conn, i, st)| +
          if conn[s].state == st then 1 else 0
    {
      assert InPrefix(conns, conn, i + 1, st) == InPrefix(conns, conn, i, st) + if conn[s].state == st then {s} else {};
    }
  }

  lemma CountPrefixAll(conns: seq<Source>, conn: ConnMap)
    requires Listed(conns, conn)
    ensures forall st :: InPrefix(conns, conn, |conns|, st) == InState(conn, st)
  {
    assert conns[..|conns|] == conns;
  }

  lemma SweepOne(cs: seq<Chunk>, link: nat)
    requires link < |cs|
    ensures Sweep(cs[..link], cs[link..]) == Sweep(Step(cs[..link], cs[link]), cs[link + 1..])
    ensures cs[link] in cs[link..] && forall c :: c in cs[link + 1..] ==> c in cs[link..]
  {
    assert cs[link..][0] == cs[link] && cs[link..][1..] == cs[link + 1..];
  }

  lemma SweepNothing(cs: seq<Chunk>)
    ensures Sweep(cs, []) == cs
  {
  }

  lemma SweepIsConsolidate(cs: seq<Chunk>)
    ensures cs[..0] == [] && cs[0..] == cs && Sweep(cs[..0], cs[0..]) == Consolidate(cs)
  {
  }
}
