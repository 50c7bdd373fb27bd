/** Session packets on a byte stream: the reading loop of
    gift-ares/lib/as_session.c and the header of gift-ares/lib/as_packet.c. */
module Framing {
  import opened Wrappers
  import opened Bytes
  import opened Packets

  datatype Frame = Frame(kind: byte, body: seq<byte>)

  predicate Sendable(fs: seq<Frame>) {
    forall i :: 0 <= i < |fs| ==> |fs[i].body| < U16
  }

  /** Length, type, body. */
  function EncodeOne(f: Frame): seq<byte>
    requires |f.body| < U16
  {
    LE16(|f.body|) + [f.kind] + f.body
  }

  function Encode(fs: seq<Frame>): seq<byte>
    requires Sendable(fs)
  {
    if fs == [] then [] else EncodeOne(fs[0]) + Encode(fs[1..])
  }

  predicate Complete(b: seq<byte>) {
    |b| >= 3 && |b| - 3 >= FromLE16(b)
  }

  /** The complete frames at the start of a stream. */
  function Frames(b: seq<byte>): seq<Frame>
    decreases |b|
  {
    if !Complete(b) then []
    else var len := FromLE16(b); [Frame(b[2], b[3..3 + len])] + Frames(b[3 + len..])
  }

  /** What is behind them. */
  function Leftover(b: seq<byte>): seq<byte>
    decreases |b|
  {
    if !Complete(b) then b else Leftover(b[3 + FromLE16(b)..])
  }

  lemma FirstFrame(f: Frame, rest: seq<byte>)
    requires |f.body| < U16
    ensures var b := EncodeOne(f) + rest;
      Complete(b) && Frames(b) == [f] + Frames(rest) && Leftover(b) == Leftover(rest)
  {
    hide LE16, FromLE16, Val, ToByte;
    var b := EncodeOne(f) + rest;
    LE16RoundTrip(|f.body|, [f.kind] + f.body + rest);
    LE16IsTwo(|f.body|);
    assert b == LE16(|f.body|) + ([f.kind] + f.body + rest);
    assert b[2] == f.kind && b[3..3 + |f.body|] == f.body && b[3 + |f.body|..] == rest;
  }

  lemma LE16IsTwo(n: nat)
    requires n < U16
    ensures |LE16(n)| == 2
  {
  }

  /** Reading back what was sent, whatever follows. */
  lemma {:induction false} FramesOfEncode(fs: seq<Frame>, rest: seq<byte>)
    requires Sendable(fs)
    ensures Frames(Encode(fs) + rest) == fs + Frames(rest)
    ensures Leftover(Encode(fs) + rest) == Leftover(rest)
  {
    hide EncodeOne, Complete;
    if fs == [] {
      assert Encode(fs) + rest == rest;
    } else {
      assert Encode(fs) + rest == EncodeOne(fs[0]) + (Encode(fs[1..]) + rest);
      FirstFrame(fs[0], Encode(fs[1..]) + rest);
      FramesOfEncode(fs[1..], rest);
    }
  }

  lemma SplitFirst(b: seq<byte>)
    requires Complete(b)
    ensures var len := FromLE16(b);
      len < U16 && b == EncodeOne(Frame(b[2], b[3..3 + len])) + b[3 + len..]
  {
    hide LE16, FromLE16;
    FromLE16Bound(b);
    LE16OfFrom(b);
    var len := FromLE16(b);
    LE16IsTwo(len);
    assert b == b[..2] + [b[2]] + b[3..3 + len] + b[3 + len..];
  }

  lemma LE16OfFrom(b: seq<byte>)
    requires |b| >= 2
    ensures FromLE16(b) < U16 && LE16(FromLE16(b)) == b[..2]
  {
    hide ToByte, Val;
    ByteOfVal(b[0]);
    ByteOfVal(b[1]);
    var n := FromLE16(b);
    assert n % 256 == Val(b[0]) && n / 256 == Val(b[1]);
  }

  /** Nothing is lost or invented: the frames and the leftover are the stream, and
      the leftover holds no complete frame. */
  lemma {:induction false} EncodeOfFrames(b: seq<byte>)
    ensures Sendable(Frames(b)) && Encode(Frames(b)) + Leftover(b) == b
    ensures !Complete(Leftover(b))
    decreases |b|
  {
    hide EncodeOne, Complete, FromLE16, Frames, Leftover, Encode, Sendable;
    CompleteMeans(b);
    if Complete(b) {
      var len := FromLE16(b);
      var f, rest := Frame(b[2], b[3..3 + len]), b[3 + len..];
      SplitFirst(b);
      FirstFrame(f, rest);
      EncodeOfFrames(rest);
      EncodeCons(f, Frames(rest));
      assert EncodeOne(f) + (Encode(Frames(rest)) + Leftover(rest)) == EncodeOne(f) + Encode(Frames(rest)) +
          Leftover(rest);
    } else {
      Incomplete(b);
    }
  }

  lemma EncodeCons(f: Frame, fs: seq<Frame>)
    requires |f.body| < U16 && Sendable(fs)
    ensures Sendable([f] + fs) && Encode([f] + fs) == EncodeOne(f) + Encode(fs)
  {
    assert ([f] + fs)[1..] == fs;
  }

  lemma Incomplete(b: seq<byte>)
    requires !Complete(b)
    ensures Frames(b) == [] && Sendable([]) && Encode([]) == [] && Leftover(b) == b
  {
  }

  lemma CompleteMeans(b: seq<byte>)
    ensures Complete(b) <==> |b| >= 3 && |b| - 3 >= FromLE16(b)
  {
  }

  lemma FramesUnfold(b: seq<byte>)
    ensures Complete(b) ==>
      && |b| >= 3 + FromLE16(b)
      && Frames(b) == [Frame(b[2], b[3..3 + FromLE16(b)])] + Frames(b[3 + FromLE16(b)..])
      && Leftover(b) == Leftover(b[3 + FromLE16(b)..])
    ensures !Complete(b) ==> Frames(b) == [] && Leftover(b) == b
  {
    hide FromLE16;
  }

  /** More bytes only add frames, and are read on from the leftover. */
  lemma {:induction false} FramesGrow(a: seq<byte>, b: seq<byte>)
    ensures Frames(a + b) == Frames(a) + Frames(Leftover(a) + b)
    ensures Leftover(a + b) == Leftover(Leftover(a) + b)
    decreases |a|
  {
    hide *;
    FramesUnfold(a);
    if Complete(a) {
      SplitFirst(a);
      var len := FromLE16(a);
      var f, rest := Frame(a[2], a[3..3 + len]), a[3 + len..];
      FirstFrame(f, rest + b);
      assert a + b == EncodeOne(f) + (rest + b);
      FramesGrow(rest, b);
      assert [f] + (Frames(rest) + Frames(Leftover(rest) + b)) == [f] + Frames(rest) + Frames(Leftover(rest) + b);
    }
  }

  /** Of a stream of frames that has arrived in part, a prefix of the frames has
      been read, and all of them once everything is there. */
  lemma FramesOfPrefix(fs: seq<Frame>, n: nat)
    requires Sendable(fs) && n <= |Encode(fs)|
    ensures Frames(Encode(fs)[..n]) <= fs
    ensures n == |Encode(fs)| ==> Frames(Encode(fs)[..n]) == fs
  {
    hide Frames, Leftover, Encode;
    var b := Encode(fs);
    assert b == b[..n] + b[n..] && b + [] == b;
    FramesOfEncode(fs, []);
    NoFrames();
    FramesGrow(b[..n], b[n..]);
    assert Frames(b) == fs + [] == fs;
    if n == |b| {
      assert b[..n] == b;
    }
  }

  lemma NoFrames()
    ensures Frames([]) == [] && Leftover([]) == []
  {
  }

  class Session {
    const packet: Packet
    var open: bool
    /** All frames dispatched and all bytes received so far. */
    var dispatched: seq<Frame>
    ghost var received: seq<byte>

    /** The buffer holds what no complete frame covers. */
    ghost predicate Valid()
      reads this, packet, packet.data
    {
      && packet.Valid()
      && (open ==> packet.readPtr == 0 && packet.Contents() == Leftover(received) && dispatched == Frames(received))
    }

    constructor ()
      ensures Valid() && open && received == [] && dispatched == [] && fresh(packet) && fresh(packet.data)
    {
      packet := new Packet();
      open, received, dispatched := true, [], [];
    }

    /** Take the first frame out of the buffer, if all of it is there. */
    method TakeFrame() returns (f: Option<Frame>)
      requires packet.Valid() && packet.Rest() == packet.Contents() && |packet.Contents()| >= 3
      modifies packet, packet.data
      ensures packet.Valid() && packet.Rest() == packet.Contents() && packet.readPtr == 0 &&
          packet.data == old(packet.data)
      ensures f.None? ==>
        packet.Contents() == old(packet.Contents()) && Frames(packet.Contents()) == [] &&
        Leftover(packet.Contents()) == packet.Contents()
      ensures f.Some? ==> Frames(old(packet.Contents())) == [f.value] + Frames(packet.Contents())
      ensures f.Some? ==> Leftover(old(packet.Contents())) == Leftover(packet.Contents())
      ensures f.Some? ==> |packet.Contents()| < |old(packet.Contents())|
    {
      hide *;
      ghost var c := packet.Contents();
      NextFrame(c);
      var len := packet.GetLE16();
      var kind := packet.Get8();
      var left := packet.Remaining();
      if left < len {
        packet.Rewind();
        return None;
      }
      assert packet.Rest()[..len] == c[3..3 + len] && packet.Rest()[len..] == c[3 + len..];
      var body := packet.CreateCopy(len);
      packet.Truncate();
      var bytes := body.Bytes();
      f := Some(Frame(kind, bytes));
    }

    /** `session_get_packet`. `verdict` says of the frames dispatched so far whether
        the session is still there after the last of them. */
    method GetPacket(bytes: seq<byte>, verdict: seq<Frame> -> bool)
      requires Valid() && open && bytes != []
      modifies this, packet, packet.data
      ensures Valid() && received == old(received) + bytes
      ensures packet.data == old(packet.data) || fresh(packet.data)
      ensures open ==> dispatched == Frames(received) && packet.Contents() == Leftover(received)
      ensures dispatched <= Frames(received) &&
          Agreed(verdict, dispatched, |old(dispatched)|, |dispatched| - if open then 0 else 1)
      ensures !open ==> |old(dispatched)| < |dispatched| && !verdict(dispatched)
    {
      hide Frames, Leftover, Agreed;
      packet.PutUstr(bytes);
      FramesGrow(received, bytes);
      received := received + bytes;
      AgreedNone(verdict, dispatched);
      while packet.used - packet.readPtr >= 3
        invariant packet.Valid() && packet.readPtr == 0 && received == old(received) + bytes
        invariant packet.data == old(packet.data) || fresh(packet.data)
        invariant Frames(received) == dispatched + Frames(packet.Contents()) &&
            Leftover(received) == Leftover(packet.Contents())
        invariant |old(dispatched)| <= |dispatched| && open
        invariant Agreed(verdict, dispatched, |old(dispatched)|, |dispatched|)
        decreases packet.used
      {
        var f := TakeFrame();
        if f.None? {
          return;
        }
        AgreedNext(verdict, dispatched, |old(dispatched)|, f.value);
        dispatched := dispatched + [f.value];
        open := verdict(dispatched);
        if !open {
          return;
        }
      }
      TooShort(packet.Contents());
    }
  }

  /** The session survived the frames from number `from` on, up to number `to`. */
  ghost predicate Agreed(verdict: seq<Frame> -> bool, fs: seq<Frame>, from: nat, to: int) {
    forall n :: from < n <= to && n <= |fs| ==> verdict(fs[..n])
  }

  lemma AgreedNone(verdict: seq<Frame> -> bool, fs: seq<Frame>)
    ensures Agreed(verdict, fs, |fs|, |fs|)
  {
  }

  lemma AgreedNext(verdict: seq<Frame> -> bool, fs: seq<Frame>, from: nat, f: Frame)
    requires Agreed(verdict, fs, from, |fs|)
    ensures Agreed(verdict, fs + [f], from, |fs|)
    ensures verdict(fs + [f]) ==> Agreed(verdict, fs + [f], from, |fs| + 1)
  {
    var t := fs + [f];
    assert t[..|t|] == t;
    forall n | from < n <= |fs|
      ensures verdict(t[..n])
    {
      assert t[..n] == fs[..n];
    }
  }

  lemma NextFrame(c: seq<byte>)
    requires |c| >= 3
    ensures if |c| - 3 < FromLE16(c) then Frames(c) == [] && Leftover(c) == c
            else
              var len := FromLE16(c);
              Frames(c) == [Frame(c[2], c[3..3 + len])] + Frames(c[3 + len..]) && Leftover(c) == Leftover(c[3 + len..])
  {
  }

  lemma TooShort(c: seq<byte>)
    requires |c| < 3
    ensures Frames(c) == [] && Leftover(c) == c
  {
  }
}
