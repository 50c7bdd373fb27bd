/** The envelopes that gift-ares/lib/as_crypt.c puts around requests, replies and
    packets. Random bytes are parameters. */
module Envelopes {
  import opened Wrappers
  import opened Bytes
  import opened Packets
  import opened Cipher

  const Main := Code(0xCE6D, 0x58BF)
  const Handshake := Code(0x5CA0, 0x15EC)
  const Payload := Code(0xD7FB, 0x3EFD)
  const Body := Code(0xCB6F, 0x41BA)
  const Login := Code(0x310F, 0x3A4E)
  const Link := Code(0x5AB3, 0x8D1E)

  /** Two zero bytes under the handshake key: the second one shows that the key has
      moved on. */
  lemma HandshakeExample()
    ensures Munge([0, 0], 0x5d1c, Handshake) == [0x5d, 0xfd] && MungeKey([0, 0], 0x5d1c, Handshake) == 0x678c
  {
    var k1: key, k2: key := 0xfd8c, 0x678c;
    assert Next(0x5d1c, 0x5d, Handshake) == k1 by {
      Numbers();
    }
    assert Next(k1, 0xfd, Handshake) == k2 by {
      Numbers();
    }
    assert HighByte(0x5d1c) == 0x5d && HighByte(k1) == 0xfd by {
      Numbers();
    }
    assert Xor(0, 0x5d) == 0x5d && Xor(0, 0xfd) == 0xfd;
    hide *;
    MungeNext([0, 0], 0x5d1c, Handshake);
    assert [0, 0][1..] == [0];
    MungeNext([0], k1, Handshake);
    NothingMunged(k2, Handshake);
  }

  lemma Numbers()
    ensures Val(0x5d) == 0x5d && Val(0xfd) == 0xfd && ToByte(0x5d) == 0x5d && ToByte(0xfd) == 0xfd
  {
  }

  // -------------------------------------------------------- packets in place

  /** `munge` on the contents of a packet from `from` on. */
  method MungePacket(p: Packet, from: nat, k0: key, code: Code) returns (k: key)
    requires p.Valid() && from <= p.used
    modifies p.data
    ensures p.Valid() && p.Contents() == old(p.Contents()[..from]) + Munge(old(p.Contents()[from..]), k0, code)
    ensures k == MungeKey(old(p.Contents()[from..]), k0, code)
  {
    hide Munge, MungeKey, Unmunge, UnmungeKey;
    ghost var before := p.Contents();
    MungeLength(before[from..], k0, code);
    assert p.data[from..p.used] == before[from..] && p.data[..from] == before[..from];
    k := MungeInPlace(p.data, from, p.used, k0, code);
  }

  /** `unmunge` on the contents of a packet from `from` on. */
  method UnmungePacket(p: Packet, from: nat, k0: key, code: Code) returns (k: key)
    requires p.Valid() && from <= p.used
    modifies p.data
    ensures p.Valid() && p.Contents() == old(p.Contents()[..from]) + Unmunge(old(p.Contents()[from..]), k0, code)
    ensures k == UnmungeKey(old(p.Contents()[from..]), k0, code)
  {
    hide Munge, MungeKey, Unmunge, UnmungeKey;
    ghost var before := p.Contents();
    UnmungeLength(before[from..], k0, code);
    assert p.data[from..p.used] == before[from..] && p.data[..from] == before[..from];
    k := UnmungeInPlace(p.data, from, p.used, k0, code);
  }

  // --------------------------------------------------------- transfer requests

  const RequestKey: key := 0x5d1c

  const PayloadKey: key := 0x3faa

  /** A request before the outer encryption: two random bytes, the number of
      padding bytes, the padding, the length and the payload. */
  function RequestText(r0: byte, r1: byte, pad: seq<byte>, payload: seq<byte>): seq<byte>
    requires |pad| < 256 && |payload| < U16
  {
    [r0, r1, ToByte(|pad|)] + pad + LE16(|payload|) + Munge(payload, PayloadKey, Payload)
  }

  function RequestEnvelope(r0: byte, r1: byte, pad: seq<byte>, payload: seq<byte>): seq<byte>
    requires |pad| < 256 && |payload| < U16
  {
    Munge(RequestText(r0, r1, pad, payload), RequestKey, Handshake)
  }

  /** What the receiver makes of a decrypted request. */
  function OpenText(u: seq<byte>): Option<seq<byte>> {
    if |u| < 6 then None else
      var skip := Val(u[2]);
      if |u| - 3 < skip + 2 then None
      else if |u| - 5 - skip < FromLE16(u[3 + skip..]) then None
      else Some(Unmunge(u[5 + skip..], PayloadKey, Payload))
  }

  function OpenRequest(bytes: seq<byte>): Option<seq<byte>> {
    OpenText(Unmunge(bytes, RequestKey, Handshake))
  }

  /** `as_encrypt_transfer_request`. */
  method EncryptTransferRequest(p: Packet, r0: byte, r1: byte, pad: seq<byte>)
    requires p.Valid() && 1 <= |pad| <= 16 && p.used < U16
    modifies p, p.data
    ensures p.Valid() && (p.data == old(p.data) || fresh(p.data))
    ensures p.Contents() == RequestEnvelope(r0, r1, pad, old(p.Contents()))
  {
    hide Munge, MungeKey, LE16;
    ghost var payload := p.Contents();
    var head := [r0, r1, ToByte(|pad|)] + pad + LE16(p.used);
    LE16Length(p.used);
    p.Prepend(head);
    assert p.Contents()[..|head|] == head && p.Contents()[|head|..] == payload;
    var _ := MungePacket(p, |head|, PayloadKey, Payload);
    ghost var text := p.Contents();
    assert text == RequestText(r0, r1, pad, payload);
    var _ := MungePacket(p, 0, RequestKey, Handshake);
    assert text[..0] == [] && text[0..] == text;
  }

  /** What is where in a request: decrypted with its fixed key it has the number of the
      padding bytes at 2, then the padding, the length of the payload, and the payload
      under a key of its own. */
  lemma RequestLayout(r0: byte, r1: byte, pad: seq<byte>, payload: seq<byte>)
    requires |pad| < 256 && |payload| < U16
    ensures var u := Unmunge(RequestEnvelope(r0, r1, pad, payload), 0x5d1c, Code(0x5CA0, 0x15EC));
      && |u| == 5 + |pad| + |payload| && Val(u[2]) == |pad| && u[3..3 + |pad|] == pad
      && Val(u[3 + |pad|]) + 256 * Val(u[4 + |pad|]) == |payload|
      && Unmunge(u[5 + |pad|..], 0x3faa, Code(0xD7FB, 0x3EFD)) == payload
  {
    hide Munge, Unmunge, LE16, ToByte, Val;
    var text := RequestText(r0, r1, pad, payload);
    UnmungeOfMunge(text, RequestKey, Handshake);
    UnmungeOfMunge(payload, PayloadKey, Payload);
    MungeLength(payload, PayloadKey, Payload);
    ValOfByte(|pad|);
    LE16Length(|payload|);
    LE16Digits(|payload|);
    assert text[5 + |pad|..] == Munge(payload, PayloadKey, Payload);
  }

  lemma LE16Length(n: nat)
    requires n < U16
    ensures |LE16(n)| == 2
  {
  }

  /** Read a decrypted request up to its payload. */
  method ReadText(p: Packet) returns (ok: bool)
    requires p.Valid() && p.readPtr == 0
    modifies p`readPtr
    ensures p.Valid() && p.Contents() == old(p.Contents())
    ensures OpenText(p.Contents()) == if ok then Some(Unmunge(p.Rest(), PayloadKey, Payload)) else None
  {
    hide Unmunge, UnmungeKey, FromLE16;
    ghost var u := p.Contents();
    assert p.Rest() == u;
    if p.used - p.readPtr < 6 {
      return false;
    }
    var _ := p.GetLE16();
    var skipByte := p.Get8();
    var skip := Val(skipByte);
    if p.used - p.readPtr < skip + 2 {
      return false;
    }
    p.Skip(skip);
    assert p.Rest() == u[3 + skip..];
    var len := p.GetLE16();
    ok := p.used - p.readPtr >= len;
  }

  /** `as_decrypt_transfer_request`. */
  method DecryptTransferRequest(p: Packet) returns (ok: bool)
    requires p.Valid()
    modifies p, p.data
    ensures p.Valid() && p.data == old(p.data)
    ensures ok <==> OpenRequest(old(p.Rest())).Some?
    ensures ok ==> p.Contents() == OpenRequest(old(p.Rest())).value && p.readPtr == 0
  {
    hide Unmunge, UnmungeKey, OpenText;
    ghost var bytes := p.Rest();
    p.Truncate();
    var _ := UnmungePacket(p, 0, RequestKey, Handshake);
    assert bytes[..0] == [] && bytes[0..] == bytes && p.Contents() == Unmunge(bytes, RequestKey, Handshake);
    ok := ReadText(p);
    if !ok {
      return;
    }
    p.Truncate();
    ghost var payload := p.Contents();
    var _ := UnmungePacket(p, 0, PayloadKey, Payload);
    assert payload[..0] == [] && payload[0..] == payload;
  }

  lemma RequestTextParts(r0: byte, r1: byte, pad: seq<byte>, payload: seq<byte>)
    requires 1 <= |pad| < 256 && |payload| < U16
    ensures var u := RequestText(r0, r1, pad, payload);
      && |u| == 5 + |pad| + |payload| && Val(u[2]) == |pad|
      && FromLE16(u[3 + |pad|..]) == |payload|
      && u[5 + |pad|..] == Munge(payload, PayloadKey, Payload)
  {
    hide ToByte, Val, LE16, FromLE16, Munge;
    ValOfByte(|pad|);
    MungeLength(payload, PayloadKey, Payload);
    LE16Length(|payload|);
    var m := Munge(payload, PayloadKey, Payload);
    var u := RequestText(r0, r1, pad, payload);
    LE16RoundTrip(|payload|, m);
    assert u[3 + |pad|..] == LE16(|payload|) + m;
    assert u[5 + |pad|..] == m;
  }

  /** The whole envelope opens to the payload, and no part of it opens at all. */
  lemma RequestOpensExactly(r0: byte, r1: byte, pad: seq<byte>, payload: seq<byte>, n: nat)
    requires 1 <= |pad| < 256 && |payload| < U16
    requires n <= |RequestEnvelope(r0, r1, pad, payload)|
    ensures |RequestEnvelope(r0, r1, pad, payload)| == 5 + |pad| + |payload|
    ensures OpenRequest(RequestEnvelope(r0, r1, pad, payload)[..n]) ==
            if n == 5 + |pad| + |payload| then Some(payload) else None
  {
    hide RequestText, Munge, Unmunge, Val, FromLE16;
    var u := RequestText(r0, r1, pad, payload);
    MungeLength(u, RequestKey, Handshake);
    UnmungePrefix(u, n, RequestKey, Handshake);
    RequestTextParts(r0, r1, pad, payload);
    if 5 + |pad| <= n {
      LengthField(u, n, 3 + |pad|);
    }
    if n == |u| {
      assert u[..n] == u;
      UnmungeOfMunge(payload, PayloadKey, Payload);
    }
  }

  lemma LengthField(u: seq<byte>, n: nat, at: nat)
    requires at + 2 <= n <= |u|
    ensures FromLE16(u[..n][at..]) == FromLE16(u[at..])
  {
  }

  // ------------------------------------------------------------ the 0x0a field

  /** Random bytes, ticks and their hash: nine bytes that the receiver skips. */
  function TicksEnvelope(header: seq<byte>, payload: seq<byte>): seq<byte>
    requires |header| == 9
  {
    Munge(Munge(header + Munge(payload, 0xb334, Main), 0x15d9, Link), 0x5f40, Login)
  }

  function OpenTicks(bytes: seq<byte>): Option<seq<byte>> {
    var u := Unmunge(Unmunge(bytes, 0x5f40, Login), 0x15d9, Link);
    if |u| < 9 then None else Some(Unmunge(u[9..], 0xb334, Main))
  }

  /** `as_encrypt_transfer_0a`. */
  method EncryptTransfer0a(p: Packet, header: seq<byte>)
    requires p.Valid() && |header| == 9 && p.used < U16
    modifies p, p.data
    ensures p.Valid() && (p.data == old(p.data) || fresh(p.data))
    ensures p.Contents() == TicksEnvelope(header, old(p.Contents()))
  {
    hide Munge, MungeKey;
    ghost var payload := p.Contents();
    p.Prepend(header);
    assert p.Contents()[..9] == header && p.Contents()[9..] == payload;
    var _ := MungePacket(p, 9, 0xb334, Main);
    WholeOf(p.Contents());
    var _ := MungePacket(p, 0, 0x15d9, Link);
    WholeOf(p.Contents());
    var _ := MungePacket(p, 0, 0x5f40, Login);
  }

  lemma WholeOf(s: seq<byte>)
    ensures s[..0] == [] && s[0..] == s && forall t: seq<byte> :: s[..0] + t == t
  {
  }

  /** `as_decrypt_transfer_0a`. */
  method DecryptTransfer0a(p: Packet) returns (ok: bool)
    requires p.Valid()
    modifies p, p.data
    ensures p.Valid() && p.data == old(p.data)
    ensures ok <==> OpenTicks(old(p.Rest())).Some?
    ensures ok ==> p.Contents() == OpenTicks(old(p.Rest())).value && p.readPtr == 0
  {
    hide Unmunge, UnmungeKey;
    p.Truncate();
    WholeOf(p.Contents());
    var _ := UnmungePacket(p, 0, 0x5f40, Login);
    WholeOf(p.Contents());
    var _ := UnmungePacket(p, 0, 0x15d9, Link);
    if p.used - p.readPtr < 9 {
      return false;
    }
    var _ := p.Get8();
    var _ := p.GetLE32();
    var _ := p.Get8();
    var _ := p.Get8();
    var _ := p.GetLE16();
    p.Truncate();
    WholeOf(p.Contents());
    var _ := UnmungePacket(p, 0, 0xb334, Main);
    ok := true;
  }

  /** The whole field opens to the payload; unlike a request, a part of it opens to
      the part of the payload that is there as soon as the header is. */
  lemma TicksOpen(header: seq<byte>, payload: seq<byte>, n: nat)
    requires |header| == 9 && n <= |TicksEnvelope(header, payload)|
    ensures |TicksEnvelope(header, payload)| == 9 + |payload|
    ensures OpenTicks(TicksEnvelope(header, payload)[..n]) == if n < 9 then None else Some(payload[..n - 9])
  {
    hide Munge, Unmunge, MungeKey, UnmungeKey;
    var inner := Munge(payload, 0xb334, Main);
    var u := header + inner;
    var w := Munge(u, 0x15d9, Link);
    MungeLength(payload, 0xb334, Main);
    MungeLength(u, 0x15d9, Link);
    MungeLength(w, 0x5f40, Login);
    UnmungePrefix(w, n, 0x5f40, Login);
    UnmungePrefix(u, n, 0x15d9, Link);
    if n >= 9 {
      assert u[..n][9..] == inner[..n - 9];
      UnmungePrefix(payload, n - 9, 0xb334, Main);
    }
  }

  // ------------------------------------------------------------- push requests

  /** The six inner layers of a push request. */
  function PushInner(s: seq<byte>, lo: key, hi: key, port: key): seq<byte> {
    var once := Munge(Munge(Munge(s, lo, Main), hi, Main), port, Main);
    Munge(Munge(Munge(once, lo, Main), hi, Main), port, Main)
  }

  function PushEnvelope(s: seq<byte>, lo: key, hi: key, port: key): seq<byte>
    requires |s| >= 6
  {
    Munge(Munge(s[..6], 0x3E00, Main) + PushInner(s[6..], lo, hi, port), 0x4F54, Main)
  }

  function OpenInner(s: seq<byte>, lo: key, hi: key, port: key): seq<byte> {
    var once := Unmunge(Unmunge(Unmunge(s, port, Main), hi, Main), lo, Main);
    Unmunge(Unmunge(Unmunge(once, port, Main), hi, Main), lo, Main)
  }

  function OpenPush(s: seq<byte>, lo: key, hi: key, port: key): seq<byte>
    requires |s| >= 6
  {
    UnmungeLength(s, 0x4F54, Main);
    var u := Unmunge(s, 0x4F54, Main);
    Unmunge(u[..6], 0x3E00, Main) + OpenInner(u[6..], lo, hi, port)
  }

  /** `as_encrypt_push`: `lo` and `hi` are the halves of the host address. */
  method EncryptPush(data: array<byte>, lo: key, hi: key, port: key)
    requires data.Length >= 6
    modifies data
    ensures data[..] == PushEnvelope(old(data[..]), lo, hi, port)
  {
    hide Munge, MungeKey;
    ghost var s := data[..];
    var _ := MungeTail(data, 6, lo, Main);
    var _ := MungeTail(data, 6, hi, Main);
    var _ := MungeTail(data, 6, port, Main);
    var _ := MungeTail(data, 6, lo, Main);
    var _ := MungeTail(data, 6, hi, Main);
    var _ := MungeTail(data, 6, port, Main);
    assert data[..6] == s[..6] && data[6..] == PushInner(s[6..], lo, hi, port);
    assert data[0..6] == s[..6];
    var _ := MungeInPlace(data, 0, 6, 0x3E00, Main);
    assert data[0..] == Munge(s[..6], 0x3E00, Main) + PushInner(s[6..], lo, hi, port);
    var _ := MungeTail(data, 0, 0x4F54, Main);
    assert data[0..] == data[..];
  }

  /** `munge` from `from` to the end. */
  method MungeTail(data: array<byte>, from: nat, k0: key, code: Code) returns (k: key)
    requires from <= data.Length
    modifies data
    ensures data[..from] == old(data[..from]) && data[from..] == Munge(old(data[from..]), k0, code)
  {
    hide Munge, MungeKey;
    ghost var a, s := data[..from], data[from..];
    MungeLength(s, k0, code);
    assert data[from..data.Length] == s;
    k := MungeInPlace(data, from, data.Length, k0, code);
    assert data[..] == a + Munge(s, k0, code);
  }

  method UnmungeTail(data: array<byte>, from: nat, k0: key, code: Code) returns (k: key)
    requires from <= data.Length
    modifies data
    ensures data[..from] == old(data[..from]) && data[from..] == Unmunge(old(data[from..]), k0, code)
  {
    hide Unmunge, UnmungeKey;
    ghost var a, s := data[..from], data[from..];
    UnmungeLength(s, k0, code);
    assert data[from..data.Length] == s;
    k := UnmungeInPlace(data, from, data.Length, k0, code);
    assert data[..] == a + Unmunge(s, k0, code);
  }

  /** `as_decrypt_push`. */
  method DecryptPush(data: array<byte>, lo: key, hi: key, port: key)
    requires data.Length >= 6
    modifies data
    ensures data[..] == OpenPush(old(data[..]), lo, hi, port)
  {
    hide Unmunge, UnmungeKey;
    var _ := UnmungeTail(data, 0, 0x4F54, Main);
    ghost var u := data[..];
    UnmungeLength(data[..6], 0x3E00, Main);
    var _ := UnmungeInPlace(data, 0, 6, 0x3E00, Main);
    assert data[6..] == u[6..];
    ghost var first := data[..6];
    var _ := UnmungeTail(data, 6, port, Main);
    var _ := UnmungeTail(data, 6, hi, Main);
    var _ := UnmungeTail(data, 6, lo, Main);
    var _ := UnmungeTail(data, 6, port, Main);
    var _ := UnmungeTail(data, 6, hi, Main);
    var _ := UnmungeTail(data, 6, lo, Main);
    assert data[..6] == first && data[6..] == OpenInner(u[6..], lo, hi, port);
    assert data[..] == data[..6] + data[6..];
  }

  lemma InnerOpens(s: seq<byte>, lo: key, hi: key, port: key)
    ensures OpenInner(PushInner(s, lo, hi, port), lo, hi, port) == s
  {
    hide Munge, Unmunge, MungeKey, UnmungeKey;
    var a := Munge(s, lo, Main);
    var b := Munge(a, hi, Main);
    var c := Munge(b, port, Main);
    var d := Munge(c, lo, Main);
    var e := Munge(d, hi, Main);
    UnmungeOfMunge(s, lo, Main);
    UnmungeOfMunge(a, hi, Main);
    UnmungeOfMunge(b, port, Main);
    UnmungeOfMunge(c, lo, Main);
    UnmungeOfMunge(d, hi, Main);
    UnmungeOfMunge(e, port, Main);
  }

  /** All eight layers come off again. */
  lemma PushOpens(s: seq<byte>, lo: key, hi: key, port: key)
    requires |s| >= 6
    ensures |PushEnvelope(s, lo, hi, port)| >= 6
    ensures OpenPush(PushEnvelope(s, lo, hi, port), lo, hi, port) == s
  {
    hide Munge, Unmunge, MungeKey, UnmungeKey, PushInner, OpenInner;
    var first := Munge(s[..6], 0x3E00, Main);
    var u := first + PushInner(s[6..], lo, hi, port);
    MungeLength(s[..6], 0x3E00, Main);
    MungeLength(u, 0x4F54, Main);
    UnmungeOfMunge(u, 0x4F54, Main);
    UnmungeOfMunge(s[..6], 0x3E00, Main);
    assert u[..6] == first && u[6..] == PushInner(s[6..], lo, hi, port);
    InnerOpens(s[6..], lo, hi, port);
    assert s == s[..6] + s[6..];
  }

  // -------------------------------------------------------------- login strings

  function LoginKey1(seed16: key): key { (seed16 + 0x0C) % U16 }

  function LoginKey2(seed16: key, seed8: byte): key { (seed16 - Val(seed8) + 0x0B) % U16 }

  /** `as_encrypt_login_string` followed by `as_decrypt_login_string`, in place. */
  lemma LoginOpens(s: seq<byte>, seed16: key, seed8: byte)
    ensures var k1, k2 := LoginKey1(seed16), LoginKey2(seed16, seed8);
      Unmunge(Unmunge(Munge(Munge(s, k1, Main), k2, Login), k2, Login), k1, Main) == s
  {
    hide *;
    var k1, k2 := LoginKey1(seed16), LoginKey2(seed16, seed8);
    UnmungeOfMunge(s, k1, Main);
    UnmungeOfMunge(Munge(s, k1, Main), k2, Login);
  }

  method EncryptLogin(data: array<byte>, seed16: key, seed8: byte)
    modifies data
    ensures data[..] == Munge(Munge(old(data[..]), LoginKey1(seed16), Main), LoginKey2(seed16, seed8), Login)
  {
    hide *;
    var _ := MungeTail(data, 0, LoginKey1(seed16), Main);
    var _ := MungeTail(data, 0, LoginKey2(seed16, seed8), Login);
    assert data[0..] == data[..];
  }

  method DecryptLogin(data: array<byte>, seed16: key, seed8: byte)
    modifies data
    ensures data[..] == Unmunge(Unmunge(old(data[..]), LoginKey2(seed16, seed8), Login), LoginKey1(seed16), Main)
  {
    hide *;
    var _ := UnmungeTail(data, 0, LoginKey2(seed16, seed8), Login);
    var _ := UnmungeTail(data, 0, LoginKey1(seed16), Main);
    assert data[0..] == data[..];
  }

  // ------------------------------------------------------------ session packets

  /** A session packet on the wire; `packetKey` is the key schedule of the session,
      which turns the seed of a packet into its key. */
  function SealPacket(packetKey: byte -> key, s: seq<byte>): seq<byte> {
    [0, 0] + Munge(s, packetKey(0), Main)
  }

  function OpenPacket(packetKey: byte -> key, bytes: seq<byte>): Option<seq<byte>> {
    if |bytes| < 3 then None else Some(Unmunge(bytes[2..], packetKey(bytes[0]), Main))
  }

  /** `as_cipher_encrypt_packet`. */
  method EncryptPacket(packetKey: byte -> key, p: Packet)
    requires p.Valid()
    modifies p, p.data
    ensures p.Valid() && (p.data == old(p.data) || fresh(p.data))
    ensures p.Contents() == SealPacket(packetKey, old(p.Contents()))
  {
    hide Munge, MungeKey;
    WholeOf(p.Contents());
    var _ := MungePacket(p, 0, packetKey(0), Main);
    p.Prepend([0, 0]);
  }

  /** `as_cipher_decrypt_packet`. */
  method DecryptPacket(packetKey: byte -> key, p: Packet) returns (ok: bool)
    requires p.Valid()
    modifies p, p.data
    ensures p.Valid() && p.data == old(p.data)
    ensures ok <==> OpenPacket(packetKey, old(p.Rest())).Some?
    ensures ok ==> p.Contents() == OpenPacket(packetKey, old(p.Rest())).value && p.readPtr == 0
    ensures !ok ==> p.Contents() == old(p.Contents()) && p.readPtr == old(p.readPtr)
  {
    hide Unmunge, UnmungeKey;
    if p.used - p.readPtr < 3 {
      return false;
    }
    var seedA := p.Get8();
    var _ := p.Get8();
    p.Truncate();
    WholeOf(p.Contents());
    var _ := UnmungePacket(p, 0, packetKey(seedA), Main);
    ok := true;
  }

  /** A packet opens to what was sealed, unless that was empty. */
  lemma PacketOpensIff(packetKey: byte -> key, s: seq<byte>)
    ensures OpenPacket(packetKey, SealPacket(packetKey, s)) == if s == [] then None else Some(s)
  {
    hide Munge, Unmunge;
    MungeLength(s, packetKey(0), Main);
    UnmungeOfMunge(s, packetKey(0), Main);
    assert SealPacket(packetKey, s)[2..] == Munge(s, packetKey(0), Main);
  }

  // ----------------------------------------------------------- transfer replies

  /** A reply before encryption: two random bytes, the number of padding bytes, the
      padding, the HTTP header. */
  function ReplyText(r0: byte, r1: byte, pad: seq<byte>, text: seq<byte>): seq<byte>
    requires |pad| < 256
  {
    [r0, r1, ToByte(|pad|)] + pad + text
  }

  /** What is behind the binary header, once all of that is there. */
  function OpenReply(u: seq<byte>): Option<seq<byte>> {
    if |u| < 3 || |u| - 3 < Val(u[2]) then None else Some(u[3 + Val(u[2])..])
  }

  /** `as_encrypt_transfer_reply`; the key goes on to the body. */
  method EncryptTransferReply(p: Packet, r0: byte, r1: byte, pad: seq<byte>, k0: key) returns (k: key)
    requires p.Valid() && 1 <= |pad| <= 16 && p.used < U16
    modifies p, p.data
    ensures p.Valid() && (p.data == old(p.data) || fresh(p.data))
    ensures p.Contents() == Munge(ReplyText(r0, r1, pad, old(p.Contents())), k0, Body)
    ensures k == MungeKey(ReplyText(r0, r1, pad, old(p.Contents())), k0, Body)
  {
    hide Munge, MungeKey;
    p.Prepend([r0, r1, ToByte(|pad|)] + pad);
    WholeOf(p.Contents());
    k := MungePacket(p, 0, k0, Body);
  }

  /** Skip the binary header of a decrypted reply. */
  method SkipHeader(p: Packet) returns (ok: bool)
    requires p.Valid() && p.readPtr == 0
    modifies p`readPtr
    ensures p.Valid() && p.Contents() == old(p.Contents())
    ensures OpenReply(p.Contents()) == if ok then Some(p.Rest()) else None
  {
    hide FromLE16;
    assert p.Rest() == p.Contents();
    if p.used - p.readPtr < 3 {
      return false;
    }
    var _ := p.GetLE16();
    var skipByte := p.Get8();
    var skip := Val(skipByte);
    ok := p.used - p.readPtr >= skip;
    if ok {
      p.Skip(skip);
    }
  }

  /** `as_decrypt_transfer_reply`. The key is updated even on failure. */
  method DecryptTransferReply(p: Packet, k0: key) returns (ok: bool, k: key)
    requires p.Valid()
    modifies p, p.data
    ensures p.Valid() && p.data == old(p.data)
    ensures k == UnmungeKey(old(p.Rest()), k0, Body)
    ensures ok <==> OpenReply(Unmunge(old(p.Rest()), k0, Body)).Some?
    ensures ok ==> p.Contents() == OpenReply(Unmunge(old(p.Rest()), k0, Body)).value && p.readPtr == 0
  {
    hide Unmunge, UnmungeKey, OpenReply;
    ghost var bytes := p.Rest();
    p.Truncate();
    k := UnmungePacket(p, 0, k0, Body);
    assert bytes[..0] == [] && bytes[0..] == bytes && p.Contents() == Unmunge(bytes, k0, Body);
    ok := SkipHeader(p);
    if ok {
      p.Truncate();
    }
  }

  lemma ReplyOpens(r0: byte, r1: byte, pad: seq<byte>, text: seq<byte>, n: nat)
    requires |pad| < 256 && n <= |ReplyText(r0, r1, pad, text)|
    ensures |ReplyText(r0, r1, pad, text)| == 3 + |pad| + |text|
    ensures OpenReply(ReplyText(r0, r1, pad, text)[..n]) == if n < 3 + |pad| then None else Some(text[..n - 3 - |pad|])
  {
    hide ToByte, Val;
    ValOfByte(|pad|);
    var u := ReplyText(r0, r1, pad, text);
    if n >= 3 {
      assert u[..n][2] == ToByte(|pad|);
    }
    if n >= 3 + |pad| {
      assert u[..n][3 + |pad|..] == text[..n - 3 - |pad|];
    }
  }
}
