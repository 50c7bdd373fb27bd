/** An encrypted transfer from end to end: gift-ares/lib/as_upload.c sends a reply
    header and then the file in blocks, gift-ares/lib/as_download_conn.c takes the
    bytes as they come in. */
module TransferStream {
  import opened Wrappers
  import opened Bytes
  import opened Packets
  import opened Cipher
  import opened Envelopes

  // ---------------------------------------------------- the end of the header

  const CR: byte := 0x0D
  const LF: byte := 0x0A

  /** Position behind the first empty line, if there is one before a zero byte
      (`as_http_header_parse`). */
  function HeaderEnd(s: seq<byte>, i: nat): Option<nat>
    decreases |s| - i
  {
    if i + 3 > |s| || s[i] == 0 then None
    else if i + 4 <= |s| && s[i] == CR && s[i + 1] == LF && s[i + 2] == CR && s[i + 3] == LF then Some(i + 4)
    else HeaderEnd(s, i + 1)
  }

  method FindHeaderEnd(s: seq<byte>) returns (r: Option<nat>)
    ensures r == HeaderEnd(s, 0)
  {
    var i := 0;
    while i + 3 <= |s| && s[i] != 0
      invariant HeaderEnd(s, i) == HeaderEnd(s, 0)
      decreases |s| - i
    {
      if s[i] == CR && s[i + 1] == LF {
        if i + 4 <= |s| && s[i + 2] == CR && s[i + 3] == LF {
          return Some(i + 4);
        }
      }
      i := i + 1;
    }
    return None;
  }

  /** The end of the header, once found, stays where it is as more arrives; and it
      is found as soon as it has arrived. */
  lemma {:induction false} HeaderEndPrefix(s: seq<byte>, n: nat, i: nat)
    requires n <= |s|
    ensures HeaderEnd(s, i).Some? ==> i + 4 <= HeaderEnd(s, i).value <= |s|
    ensures HeaderEnd(s[..n], i) ==
        if HeaderEnd(s, i).Some? && HeaderEnd(s, i).value <= n then HeaderEnd(s, i) else None
    decreases |s| - i
  {
    if i + 3 <= |s| {
      HeaderEndPrefix(s, n, i + 1);
    }
  }

  ghost predicate EmptyLineAt(s: seq<byte>, k: nat) {
    k + 4 <= |s| && s[k..k + 4] == [0x0D, 0x0A, 0x0D, 0x0A]
  }

  lemma HeaderEndNext(s: seq<byte>, i: nat)
    ensures HeaderEnd(s, i) ==
      if i + 3 > |s| || s[i] == 0 then None else if EmptyLineAt(s, i) then Some(i + 4) else HeaderEnd(s, i + 1)
  {
    if i + 4 <= |s| {
      assert s[i..i + 4] == [s[i], s[i + 1], s[i + 2], s[i + 3]];
    }
  }

  /** The header ends behind the first empty line, and a zero byte before it hides it. */
  lemma {:induction false} HeaderEndIs(s: seq<byte>, i: nat)
    ensures HeaderEnd(s, i).Some? ==>
      var k := HeaderEnd(s, i).value - 4;
      && i <= k && EmptyLineAt(s, k) && k < |s| && forall j: nat :: i <= j < k ==> !EmptyLineAt(s, j) && s[j] != 0
    ensures HeaderEnd(s, i).None? ==> forall k: nat :: i <= k < |s| && EmptyLineAt(s, k) ==> 0 in s[i..k]
    decreases |s| - i
  {
    HeaderEndNext(s, i);
    hide HeaderEnd;
    if i + 3 <= |s| && s[i] == 0 {
      forall k: nat | i <= k < |s| && EmptyLineAt(s, k)
        ensures 0 in s[i..k]
      {
        assert s[k..k + 4][0] == s[k];
        assert s[i..k][0] == 0;
      }
    } else if i + 3 <= |s| && !EmptyLineAt(s, i) {
      hide EmptyLineAt;
      HeaderEndIs(s, i + 1);
      forall k: nat | HeaderEnd(s, i).None? && i <= k < |s| && EmptyLineAt(s, k)
        ensures 0 in s[i..k]
      {
        assert s[i..k][1..] == s[i + 1..k];
      }
    }
  }

  // ------------------------------------------------------------------ the sender

  /** Send the reply header and then the file in blocks, each sent in full. */
  method Send(header: seq<byte>, r0: byte, r1: byte, pad: seq<byte>, k0: key, blocks: seq<seq<byte>>)
    returns (stream: seq<byte>, k: key)
    requires 1 <= |pad| <= 16 && |header| < U16
    ensures var plain := ReplyText(r0, r1, pad, header) + Joined(blocks);
      stream == Munge(plain, k0, Body) && k == MungeKey(plain, k0, Body)
  {
    hide Munge, MungeKey, Joined;
    ghost var first := ReplyText(r0, r1, pad, header);
    var p := new Packet();
    p.PutUstr(header);
    assert p.Contents() == header;
    k := EncryptTransferReply(p, r0, r1, pad, k0);
    stream := p.data[..p.used];
    JoinedNone();
    assert blocks[..0] == [] && first + [] == first;
    for i := 0 to |blocks|
      invariant stream == Munge(first + Joined(blocks[..i]), k0, Body)
      invariant k == MungeKey(first + Joined(blocks[..i]), k0, Body)
    {
      var block := blocks[i];
      var buf := new byte[|block|](j requires 0 <= j < |block| => block[j]);
      assert buf[..] == block && buf[0..buf.Length] == block;
      JoinedNext(blocks, i);
      MungeConcat(first + Joined(blocks[..i]), block, k0, Body);
      assert first + Joined(blocks[..i]) + block == first + Joined(blocks[..i + 1]);
      k := MungeInPlace(buf, 0, buf.Length, k, Body);
      stream := stream + buf[..];
    }
    assert blocks[..|blocks|] == blocks;
  }

  lemma XorCancels(x: byte, a: byte, b: byte)
    ensures Xor(Xor(x, a), b) == x <==> a == b
  {
    assert (x ^ a) ^ b == x <==> a == b;
  }

  /** After a short send the file is rewound but the key is not: of block `a` only `n`
      bytes went out, and the file from there on, `next`, is encrypted with the key
      behind the whole block. What went out is received; the byte after it comes out
      right exactly if that key and the right one have the same high byte. */
  lemma ShortSend(a: seq<byte>, n: nat, next: seq<byte>, k: key)
    requires n <= |a| && next != []
    ensures |Munge(a, k, Body)| == |a|
    ensures var late, right := MungeKey(a, k, Body), MungeKey(a[..n], k, Body);
      var out := Unmunge(Munge(a, k, Body)[..n] + Munge(next, late, Body), k, Body);
      && |out| == n + |next| && out[..n] == a[..n]
      && (out[n] == next[0] <==> HighByte(late) == HighByte(right))
  {
    hide *;
    MungeLength(a, k, Body);
    var late, right := MungeKey(a, k, Body), MungeKey(a[..n], k, Body);
    var sent, m := Munge(a, k, Body)[..n], Munge(next, late, Body);
    UnmungePrefix(a, n, k, Body);
    UnmungeConcat(sent, m, k, Body);
    MungeLength(next, late, Body);
    UnmungeLength(m, right, Body);
    MungeNext(next, late, Body);
    UnmungeNext(m, right, Body);
    XorCancels(next[0], HighByte(late), HighByte(right));
  }

  /** A block of one byte of which nothing could be sent is enough to spoil the rest. */
  lemma ShortSendSpoils()
    ensures var a: seq<byte> := [1];
      |Munge(a, 0, Body)| == 1 && Unmunge(Munge(a, 0, Body)[..0] + Munge(a, MungeKey(a, 0, Body), Body), 0,
          Body)[..1] != a
  {
    var a: seq<byte> := [1];
    ShortSend(a, 0, a, 0);
    assert a[..0] == [] && a[1..] == [];
    NothingMunged(0, Body);
    MungeNext(a, 0, Body);
    NothingMunged(Next(0, Xor(1, HighByte(0)), Body), Body);
    assert Val(1) == 1 && ToByte(0) == 0 && ToByte(13) == 13;
    assert HighByte(0) == 0 && Xor(1, 0) == 1 && HighByte(Next(0, 1, Body)) == 13;
    hide Munge, Unmunge, MungeKey, HighByte, Next;
  }

  // ---------------------------------------------------------------- the receiver

  /** DOWNCONN_MAX_HEADER_SIZE */
  const MaxHeaderSize: nat := 4096

  /** `Waiting` for the whole header, `Reading` the body, or given up. */
  datatype Phase = Waiting | Reading | GaveUp

  /** The part of the body in a decrypted stream, once the header is complete and
      `accepts` it. */
  function BodyIn(plain: seq<byte>, accepts: seq<byte> -> bool): Option<seq<byte>> {
    match OpenReply(plain)
    case None => None
    case Some(text) =>
      match HeaderEnd(text, 0)
      case None => None
      case Some(n) => HeaderEndPrefix(text, |text|, 0); if accepts(text[..n]) then Some(text[n..]) else None
  }

  lemma NoReplyNoBody(plain: seq<byte>, accepts: seq<byte> -> bool)
    ensures OpenReply(plain).None? ==> BodyIn(plain, accepts) == None
  {
  }

  lemma BodyInText(plain: seq<byte>, text: seq<byte>, accepts: seq<byte> -> bool)
    ensures var end := HeaderEnd(text, 0);
      && (end.Some? ==> end.value <= |text|)
      && (OpenReply(plain) == Some(text) ==>
          BodyIn(plain, accepts) == if end.Some? && accepts(text[..end.value]) then Some(text[end.value..]) else None)
  {
    HeaderEndPrefix(text, |text|, 0);
  }

  class Receiver {
    /** Whether a complete header can be parsed further. */
    const accepts: seq<byte> -> bool
    const key0: key
    var recvBuf: Packet
    var replyKey: key
    var phase: Phase
    /** What has come in, and what has been passed on. */
    ghost var arrived: seq<byte>
    ghost var output: seq<byte>

    ghost predicate Valid()
      reads this, recvBuf, recvBuf.data
    {
      && (phase == Waiting ==>
            recvBuf.Valid() && recvBuf.Contents() == arrived && replyKey == key0 && output == []
            && BodyIn(Unmunge(arrived, key0, Body), accepts) == None)
      && (phase == Reading ==>
            replyKey == UnmungeKey(arrived, key0, Body)
            && BodyIn(Unmunge(arrived, key0, Body), accepts) == Some(output))
    }

    constructor (accepts: seq<byte> -> bool, key0: key)
      ensures Valid() && phase == Waiting && arrived == [] && this.accepts == accepts && this.key0 == key0
      ensures fresh(recvBuf) && fresh(recvBuf.data)
    {
      this.accepts, this.key0, replyKey := accepts, key0, key0;
      recvBuf := new Packet();
      phase, arrived, output := Waiting, [], [];
    }

    /** Decrypt a copy of everything in the buffer from the original key. */
    method TryDecrypt() returns (text: Option<seq<byte>>, k: key)
      requires recvBuf.Valid()
      modifies recvBuf`readPtr
      ensures recvBuf.Valid() && recvBuf.Contents() == old(recvBuf.Contents())
      ensures text == OpenReply(Unmunge(recvBuf.Contents(), replyKey, Body))
      ensures k == UnmungeKey(recvBuf.Contents(), replyKey, Body)
    {
      hide *;
      recvBuf.Rewind();
      ghost var arrived := recvBuf.Contents();
      var n := recvBuf.Remaining();
      var reply := recvBuf.CreateCopy(n);
      assert arrived[..n] == arrived;
      var ok;
      ok, k := DecryptTransferReply(reply, replyKey);
      if ok {
        var bytes := reply.Bytes();
        text := Some(bytes);
      } else {
        text := None;
      }
    }

    /** `downconn_read_header`. The whole buffer is decrypted again from the original
        key each time more comes in; only success moves the key on. */
    method ReadHeader(bytes: seq<byte>) returns (data: seq<byte>)
      requires Valid() && phase == Waiting
      modifies this, recvBuf, recvBuf.data
      ensures Valid() && arrived == old(arrived) + bytes && output == data
      ensures phase == GaveUp <==>
        |arrived| >= MaxHeaderSize && OpenReply(Unmunge(arrived, key0, Body)).Some? &&
        BodyIn(Unmunge(arrived, key0, Body), accepts) == None
      ensures phase == Waiting ==> data == []
      ensures fresh(recvBuf.data) || recvBuf.data == old(recvBuf.data)
      ensures recvBuf == old(recvBuf)
    {
      hide Unmunge, UnmungeKey, HeaderEnd, OpenReply, BodyIn;
      data := [];
      recvBuf.PutUstr(bytes);
      arrived := arrived + bytes;
      var text, k := TryDecrypt();
      ghost var plain := Unmunge(arrived, key0, Body);
      NoReplyNoBody(plain, accepts);
      if text.Some? {
        var end := FindHeaderEnd(text.value);
        BodyInText(plain, text.value, accepts);
        if end.Some? && accepts(text.value[..end.value]) {
          replyKey := k;
          phase := Reading;
          data := text.value[end.value..];
          output := data;
        } else if recvBuf.used >= MaxHeaderSize {
          phase := GaveUp;
        }
      }
    }

    /** `downconn_read_body`. */
    method ReadBody(bytes: seq<byte>) returns (data: seq<byte>)
      requires Valid() && phase == Reading
      modifies this
      ensures Valid() && arrived == old(arrived) + bytes && output == old(output) + data && phase == Reading &&
          recvBuf == old(recvBuf)
    {
      hide Unmunge, UnmungeKey, BodyIn;
      var buf := new byte[|bytes|](j requires 0 <= j < |bytes| => bytes[j]);
      assert buf[..] == bytes && buf[0..buf.Length] == bytes;
      UnmungeConcat(arrived, bytes, key0, Body);
      BodyGrows(Unmunge(arrived, key0, Body), Unmunge(bytes, replyKey, Body), accepts);
      replyKey := UnmungeInPlace(buf, 0, buf.Length, replyKey, Body);
      data := buf[..];
      assert data == Unmunge(bytes, UnmungeKey(arrived, key0, Body), Body);
      arrived := arrived + bytes;
      output := output + data;
    }
  }

  lemma OpenReplyGrows(plain: seq<byte>, more: seq<byte>)
    requires OpenReply(plain).Some?
    ensures OpenReply(plain + more) == Some(OpenReply(plain).value + more)
  {
    hide Val;
    var skip := Val(plain[2]);
    assert (plain + more)[2] == plain[2];
    assert (plain + more)[3 + skip..] == plain[3 + skip..] + more;
  }

  /** More plaintext behind a complete header is more body. */
  lemma BodyGrows(plain: seq<byte>, more: seq<byte>, accepts: seq<byte> -> bool)
    requires BodyIn(plain, accepts).Some?
    ensures BodyIn(plain + more, accepts) == Some(BodyIn(plain, accepts).value + more)
  {
    hide HeaderEnd, OpenReply;
    var text := OpenReply(plain).value;
    OpenReplyGrows(plain, more);
    assert (text + more)[..|text|] == text;
    HeaderEndPrefix(text + more, |text|, 0);
    HeaderEndPrefix(text, |text|, 0);
    var n := HeaderEnd(text, 0).value;
    assert (text + more)[..n] == text[..n] && (text + more)[n..] == text[n..] + more;
  }

  // ------------------------------------------------------------------ end to end

  /** What the sender encrypts, and where the body starts in it. */
  function Plain(r0: byte, r1: byte, pad: seq<byte>, header: seq<byte>, body: seq<byte>): seq<byte>
    requires |pad| < 256
  {
    ReplyText(r0, r1, pad, header) + body
  }

  /** The header ends with the first empty line in it. */
  predicate GoodHeader(header: seq<byte>, accepts: seq<byte> -> bool) {
    HeaderEnd(header, 0) == Some(|header|) && accepts(header)
  }

  /** Of any prefix of the stream exactly the part of the body in it comes out, and
      the receiver's key is the one the sender had at that point. */
  lemma PrefixComesOut(r0: byte, r1: byte, pad: seq<byte>, header: seq<byte>, body: seq<byte>, m: nat, k0: key,
      accepts: seq<byte> -> bool)
    requires |pad| < 256 && GoodHeader(header, accepts)
    requires m <= |Munge(Plain(r0, r1, pad, header, body), k0, Body)|
    ensures var plain := Plain(r0, r1, pad, header, body);
      var arrived := Munge(plain, k0, Body)[..m];
      var h := 3 + |pad| + |header|;
      && |plain| == h + |body| && m <= |plain|
      && BodyIn(Unmunge(arrived, k0, Body), accepts) == (if m < h then None else Some(body[..m - h]))
      && UnmungeKey(arrived, k0, Body) == MungeKey(plain[..m], k0, Body)
  {
    hide Munge, Unmunge, MungeKey, UnmungeKey, HeaderEnd, OpenReply, BodyIn, ReplyText;
    var plain := Plain(r0, r1, pad, header, body);
    var text := header + body;
    var h := 3 + |pad| + |header|;
    SameText(r0, r1, pad, header, body);
    MungeLength(plain, k0, Body);
    UnmungePrefix(plain, m, k0, Body);
    ReplyOpens(r0, r1, pad, text, m);
    NoReplyNoBody(plain[..m], accepts);
    if 3 + |pad| <= m {
      var n := m - 3 - |pad|;
      BodyInText(plain[..m], text[..n], accepts);
      assert text[..|header|] == header;
      HeaderEndPrefix(text, |header|, 0);
      HeaderEndPrefix(text, n, 0);
      if h <= m {
        assert text[..n][..|header|] == header && text[..n][|header|..] == body[..m - h];
      }
    }
  }

  lemma SameText(r0: byte, r1: byte, pad: seq<byte>, header: seq<byte>, body: seq<byte>)
    requires |pad| < 256
    ensures Plain(r0, r1, pad, header, body) == ReplyText(r0, r1, pad, header + body)
  {
    hide ToByte;
  }

  /** Whatever blocks the file was sent in and whatever pieces arrive: the receiver
      puts out the body as far as it has come, never gives up, and is in step with
      the sender's key. */
  method Receive(pieces: seq<seq<byte>>, k0: key, accepts: seq<byte> -> bool,
      ghost r0: byte, ghost r1: byte, ghost pad: seq<byte>, ghost header: seq<byte>, ghost body: seq<byte>)
    returns (output: seq<byte>, started: bool, k: key)
    requires |pad| < 256 && GoodHeader(header, accepts) && 3 + |pad| + |header| <= MaxHeaderSize
    requires Joined(pieces) <= Munge(Plain(r0, r1, pad, header, body), k0, Body)
    ensures var m, h := |Joined(pieces)|, 3 + |pad| + |header|;
      && (started <==> h <= m)
      && m <= |Plain(r0, r1, pad, header, body)| && m <= h + |body|
      && output == (if started then body[..m - h] else [])
      && (started ==> k == MungeKey(Plain(r0, r1, pad, header, body)[..m], k0, Body))
  {
    hide *;
    ghost var stream := Munge(Plain(r0, r1, pad, header, body), k0, Body);
    var r := new Receiver(accepts, k0);
    output := [];
    JoinedNone();
    assert pieces[..0] == [];
    for i := 0 to |pieces|
      invariant r.Valid() && fresh(r) && fresh(r.recvBuf) && fresh(r.recvBuf.data) && r.accepts == accepts &&
          r.key0 == k0
      invariant r.arrived == Joined(pieces[..i]) && r.phase != GaveUp
      invariant r.phase == Reading ==> r.output == output
      invariant r.phase == Waiting ==> output == []
    {
      JoinedNext(pieces, i);
      JoinedPrefix(pieces, i + 1);
      ghost var m := |Joined(pieces[..i + 1])|;
      assert Joined(pieces[..i + 1]) == stream[..m];
      PrefixComesOut(r0, r1, pad, header, body, m, k0, accepts);
      var data;
      if r.phase == Waiting {
        data := r.ReadHeader(pieces[i]);
      } else {
        data := r.ReadBody(pieces[i]);
      }
      output := output + data;
    }
    assert pieces[..|pieces|] == pieces;
    assert Joined(pieces) == stream[..|Joined(pieces)|];
    PrefixComesOut(r0, r1, pad, header, body, |Joined(pieces)|, k0, accepts);
    ReceiverStands(r);
    started, k := r.phase == Reading, r.replyKey;
  }

  lemma ReceiverStands(r: Receiver)
    requires r.Valid()
    ensures r.phase == Waiting ==> BodyIn(Unmunge(r.arrived, r.key0, Body), r.accepts) == None
    ensures r.phase == Reading ==> r.replyKey == UnmungeKey(r.arrived, r.key0, Body)
    ensures r.phase == Reading ==> BodyIn(Unmunge(r.arrived, r.key0, Body), r.accepts) == Some(r.output)
  {
    hide Unmunge, UnmungeKey, BodyIn;
  }
}
