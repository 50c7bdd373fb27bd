/** The packet buffer of gift-ares/lib/as_packet.c: a growing byte buffer with a
    fill count and a read position. */
module Packets {
  import opened Bytes

  class Packet {
    var data: array<byte>
    var readPtr: nat
    var used: nat

    ghost predicate Valid()
      reads this
    {
      readPtr <= used <= data.Length
    }

    /** Everything put into the packet. */
    ghost function Contents(): seq<byte>
      reads this, data
      requires Valid()
    {
      data[..used]
    }

    /** What has not been read yet. */
    ghost function Rest(): seq<byte>
      reads this, data
      requires Valid()
    {
      data[readPtr..used]
    }

    constructor ()
      ensures Valid() && fresh(data) && Contents() == [] && readPtr == 0
    {
      data := new byte[0];
      readPtr, used := 0, 0;
    }

    method Bytes() returns (s: seq<byte>)
      requires Valid()
      ensures s == Contents()
    {
      s := data[..used];
    }

    method Remaining() returns (n: nat)
      requires Valid()
      ensures n == |Rest()|
    {
      n := used - readPtr;
    }

    /** Make room for `len` bytes in all, growing in steps of 512. */
    method Resize(len: nat)
      requires Valid()
      modifies this
      ensures Valid() && data.Length >= len && (data == old(data) || fresh(data))
      ensures Contents() == old(Contents()) && readPtr == old(readPtr)
    {
      if len == 0 || data.Length >= len {
        return;
      }
      var newAlloc := data.Length;
      while newAlloc < len
        invariant newAlloc >= data.Length
      {
        newAlloc := newAlloc + 512;
      }
      var mem := new byte[newAlloc];
      forall i | 0 <= i < data.Length {
        mem[i] := data[i];
      }
      data := mem;
    }

    /** `packet_write`. */
    method PutUstr(s: seq<byte>)
      requires Valid()
      modifies this, data
      ensures Valid() && (data == old(data) || fresh(data))
      ensures Contents() == old(Contents()) + s && readPtr == old(readPtr)
    {
      Resize(used + |s|);
      ghost var before := Contents();
      forall i | 0 <= i < |s| {
        data[used + i] := s[i];
      }
      used := used + |s|;
      assert Contents() == before + s;
    }

    method PutLE32(n: nat)
      requires Valid() && n < U32
      modifies this, data
      ensures Valid() && (data == old(data) || fresh(data))
      ensures Contents() == old(Contents()) + LE32(n) && readPtr == old(readPtr)
    {
      PutUstr(LE32(n));
    }

    method Pad(c: byte, count: nat)
      requires Valid()
      modifies this, data
      ensures Valid() && (data == old(data) || fresh(data))
      ensures Contents() == old(Contents()) + seq(count, _ => c) && readPtr == old(readPtr)
    {
      PutUstr(seq(count, _ => c));
    }

    /** Start reading from the beginning again. */
    method Rewind()
      requires Valid()
      modifies this`readPtr
      ensures Valid() && Contents() == old(Contents()) && Rest() == Contents() && readPtr == 0
    {
      readPtr := 0;
    }

    /** Drop what has been read: the unread bytes move to the front. */
    method Truncate()
      requires Valid()
      modifies this`readPtr, this`used, data
      ensures Valid() && data == old(data)
      ensures Contents() == old(Rest()) && Rest() == Contents() && readPtr == 0
    {
      var remaining := used - readPtr;
      ghost var rest := Rest();
      var i := 0;
      while i < remaining
        invariant 0 <= i <= remaining && used == old(used) && readPtr == old(readPtr)
        invariant forall k :: 0 <= k < i ==> data[k] == rest[k]
        invariant forall k :: readPtr + i <= k < data.Length ==> data[k] == old(data[k])
      {
        data[i] := data[readPtr + i];
        i := i + 1;
      }
      readPtr := 0;
      used := remaining;
    }

    /** Read one byte; zero if there is none. */
    method Get8() returns (b: byte)
      requires Valid()
      modifies this`readPtr
      ensures Valid() && Contents() == old(Contents())
      ensures |old(Rest())| < 1 ==> b == 0 && readPtr == old(readPtr)
      ensures |old(Rest())| >= 1 ==> b == old(Rest())[0] && Rest() == old(Rest())[1..] && readPtr == old(readPtr) + 1
    {
      if used - readPtr < 1 {
        return 0;
      }
      b := data[readPtr];
      readPtr := readPtr + 1;
    }

    /** Read and ignore `n` bytes. */
    method Skip(n: nat)
      requires Valid() && n <= |Rest()|
      modifies this`readPtr
      ensures Valid() && Contents() == old(Contents()) && Rest() == old(Rest())[n..] && readPtr == old(readPtr) + n
    {
      for i := 0 to n
        invariant Valid() && readPtr == old(readPtr) + i
      {
        var _ := Get8();
      }
    }

    method GetLE16() returns (n: nat)
      requires Valid()
      modifies this`readPtr
      ensures Valid() && n < U16 && Contents() == old(Contents())
      ensures |old(Rest())| < 2 ==> n == 0 && readPtr == old(readPtr)
      ensures |old(Rest())| >= 2 ==>
        n == FromLE16(old(Rest())) && Rest() == old(Rest())[2..] && readPtr == old(readPtr) + 2
    {
      if used - readPtr < 2 {
        return 0;
      }
      ghost var rest := Rest();
      FromLE16Bound(rest);
      n := FromLE16([data[readPtr], data[readPtr + 1]]);
      readPtr := readPtr + 2;
    }

    method GetLE32() returns (n: nat)
      requires Valid()
      modifies this`readPtr
      ensures Valid() && n < U32 && Contents() == old(Contents())
      ensures |old(Rest())| < 4 ==> n == 0 && readPtr == old(readPtr)
      ensures |old(Rest())| >= 4 ==>
        n == FromLE32(old(Rest())) && Rest() == old(Rest())[4..] && readPtr == old(readPtr) + 4
    {
      if used - readPtr < 4 {
        return 0;
      }
      ghost var rest := Rest();
      FromLE32Bound(rest);
      n := FromLE32([data[readPtr], data[readPtr + 1], data[readPtr + 2], data[readPtr + 3]]);
      readPtr := readPtr + 4;
    }

    /** `as_packet_create_copy`: the next `len` unread bytes, or all there are,
        become a packet of their own. */
    method CreateCopy(len: nat) returns (p: Packet)
      requires Valid()
      modifies this`readPtr
      ensures Valid() && fresh(p) && fresh(p.data) && p.Valid() && p.readPtr == 0 && p.Rest() == p.Contents()
      ensures Contents() == old(Contents())
      ensures var n := if len <= |old(Rest())| then len else |old(Rest())|;
        p.Contents() == old(Rest())[..n] && Rest() == old(Rest())[n..] && readPtr == old(readPtr) + n
    {
      var n := if len > used - readPtr then used - readPtr else len;
      p := new Packet();
      p.PutUstr(data[readPtr..readPtr + n]);
      readPtr := readPtr + n;
    }

    /** Make room for `n` bytes in front of the contents and fill them in. */
    method Prepend(s: seq<byte>)
      requires Valid()
      modifies this, data
      ensures Valid() && (data == old(data) || fresh(data))
      ensures Contents() == s + old(Contents()) && readPtr == old(readPtr)
    {
      Resize(used + |s|);
      ghost var before := Contents();
      forall i | 0 <= i < used {
        data[i + |s|] := data[i];
      }
      used := used + |s|;
      forall i | 0 <= i < |s| {
        data[i] := s[i];
      }
      assert Contents() == s + before;
    }

    /** `as_packet_header`: the frame of a session packet. The length field has 16 bits. */
    method Header(kind: byte)
      requires Valid() && used < U16
      modifies this, data
      ensures Valid() && (data == old(data) || fresh(data))
      ensures Contents() == LE16(|old(Contents())|) + [kind] + old(Contents()) && readPtr == old(readPtr)
    {
      Prepend(LE16(used) + [kind]);
    }
  }
}
