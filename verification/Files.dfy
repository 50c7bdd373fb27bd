/** Files as byte sequences that can be written at a position. */
module Files {
  import opened Bytes

  /** A seek followed by a write; a gap before the position reads as zeros. */
  function WriteAt(disk: seq<byte>, pos: nat, data: seq<byte>): seq<byte> {
    var d := if |disk| < pos then disk + seq(pos - |disk|, _ => 0) else disk;
    d[..pos] + data + (if pos + |data| < |d| then d[pos + |data|..] else [])
  }

  lemma WriteAtReads(disk: seq<byte>, pos: nat, data: seq<byte>, x: nat)
    ensures pos <= x < pos + |data| ==> x < |WriteAt(disk, pos, data)| && WriteAt(disk, pos, data)[x] == data[x - pos]
    ensures x < |disk| && !(pos <= x < pos + |data|) ==>
        x < |WriteAt(disk, pos, data)| && WriteAt(disk, pos, data)[x] == disk[x]
    ensures |WriteAt(disk, pos, data)| >= |disk|
  {
  }

  /** Writing the same bytes at the same place again changes nothing. */
  lemma WriteAgain(disk: seq<byte>, pos: nat, data: seq<byte>)
    ensures var w := WriteAt(disk, pos, data); |w| >= pos && WriteAt(w, pos, data) == w
  {
    var w := WriteAt(disk, pos, data);
    assert w[pos..pos + |data|] == data;
  }

  /** What is written stays written while nothing changes from its place on. */
  lemma WrittenStays(a: seq<byte>, b: seq<byte>, pos: nat, data: seq<byte>)
    requires WriteAt(a, pos, data) == a && |b| >= pos && |a| >= pos && b[pos..] == a[pos..]
    ensures WriteAt(b, pos, data) == b
  {
    WriteAgain(a, pos, data);
    assert a[pos..][..|data|] == data;
    assert b == b[..pos] + b[pos..];
    assert b[pos..] == data + b[pos..][|data|..];
  }
}
