/** The session manager of gift-ares/lib/as_session_man.c: keep the wanted number of
    sessions up, with a few connection attempts at a time. A session is named by
    the host it is with; whether a connection attempt can be begun is left open. */
module SessionManager {
  import opened Wrappers
  import opened Listing
  import opened NodeManager

  /** AS_SESSION_PARALLEL_ATTEMPTS */
  const ParallelAttempts: nat := 10

  ghost predicate Distinct(s: seq<Host>) {
    forall i, j :: 0 <= i < j < |s| ==> s[i] != s[j]
  }

  /** No two sessions are with the same host, and the nodes in use are exactly the
      hosts of sessions. */
  ghost predicate Consistent(connecting: seq<Host>, connected: seq<Host>, index: Nodes) {
    && Distinct(connecting) && Distinct(connected)
    && (forall h :: h in connecting ==> h !in connected)
    && (forall h :: h in connecting || h in connected <==> h in InUse(index))
  }

  class SessMan {
    const nodeman: NodeMan
    var connections: nat
    var connecting: seq<Host>
    var connected: seq<Host>

    /** Holds all the time. */
    ghost predicate Sound()
      reads this`connecting, this`connected, nodeman
    {
      nodeman.Valid() && Consistent(connecting, connected, nodeman.index) && |connecting| <= ParallelAttempts
    }

    /** Holds between operations. */
    ghost predicate Valid()
      reads this, nodeman
    {
      && Sound()
      && |connected| <= connections
      && (|connected| == connections ==> connecting == [])
    }

    constructor (nodeman: NodeMan)
      requires nodeman.Valid() && InUse(nodeman.index) == {}
      ensures Valid() && this.nodeman == nodeman && connecting == [] && connected == [] && connections == 0
    {
      this.nodeman, connections, connecting, connected := nodeman, 0, [], [];
    }

    lemma Parts()
      requires Sound()
      ensures nodeman.Valid() && Consistent(connecting, connected, nodeman.index) && |connecting| <= ParallelAttempts
    {
    }

    lemma FromParts()
      requires nodeman.Valid() && Consistent(connecting, connected, nodeman.index) && |connecting| <= ParallelAttempts
      ensures Sound()
      ensures |connected| <= connections && (|connected| == connections ==> connecting == []) ==> Valid()
    {
    }

    /** Disconnect the first session of the connecting list. */
    method DropConnecting(now: int)
      requires Sound() && connecting != []
      modifies this`connecting, nodeman
      ensures Sound() && connecting == old(connecting)[1..]
    {
      hide *;
      Parts();
      var h := connecting[0];
      var weight: real := *;
      HeadInUse(connecting, connected, nodeman.index);
      ghost var before := nodeman.index;
      var _ := nodeman.UpdateDisconnected(h, now, weight);
      FreeConnecting(connecting, connected, before, nodeman.index[h]);
      connecting := connecting[1..];
      FromParts();
    }

    /** Disconnect the first session of the connected list. */
    method DropConnected(now: int)
      requires Sound() && connected != []
      modifies this`connected, nodeman
      ensures Sound() && connected == old(connected)[1..]
    {
      hide *;
      Parts();
      var h := connected[0];
      var weight: real := *;
      ghost var before := nodeman.index;
      SwapLists(connecting, connected, before);
      HeadInUse(connected, connecting, before);
      var _ := nodeman.UpdateDisconnected(h, now, weight);
      FreeConnecting(connected, connecting, before, nodeman.index[h]);
      connected := connected[1..];
      SwapLists(connected, connecting, nodeman.index);
      FromParts();
    }

    /** Stop all connection attempts. */
    method StopConnecting(now: int)
      requires Sound()
      modifies this`connecting, nodeman
      ensures Sound() && connecting == []
    {
      while connecting != []
        invariant Sound()
        decreases |connecting|
      {
        DropConnecting(now);
      }
    }

    /** Take the best node and begin to connect to it. A node that cannot be connected
        to has been marked as tried all the same, so it does not come again. */
    method TryNext(now: int) returns (found: bool, begun: bool)
      requires Sound() && |connecting| < ParallelAttempts
      modifies this`connecting, nodeman
      ensures Sound()
      ensures found <==> Eligible(old(nodeman.index), now) != {}
      ensures |Eligible(nodeman.index, now)| == |Eligible(old(nodeman.index), now)| - if found then 1 else 0
      ensures !found ==> !begun && Eligible(nodeman.index, now) == {}
      ensures if begun then |connecting| == |old(connecting)| + 1 && connecting[1..] == old(connecting)
              else connecting == old(connecting)
    {
      hide *;
      Parts();
      ghost var before := nodeman.index;
      var node := nodeman.Next(now);
      found, begun := node.Some?, false;
      if node.Some? {
        var h := node.value;
        ghost var tried := nodeman.index;
        NextCounts(before, h, now);
        begun := *;
        if !begun {
          var weight: real := *;
          var _ := nodeman.UpdateFailed(h, weight);
          FailedAgain(before, connecting, connected, h, now, weight);
        } else {
          BeginConnecting(before, connecting, connected, h, now);
          connecting := [h] + connecting;
        }
      }
      FromParts();
    }

    /** Remove the superfluous sessions. */
    method Trim(now: int)
      requires Sound() && connecting == [] && connections <= |connected|
      modifies this`connected, nodeman
      ensures Sound() && connected == old(connected)[|old(connected)| - connections..]
    {
      hide *;
      var len := |connected| - connections;
      ghost var all, gone := connected, 0;
      while len > 0
        invariant Sound() && gone + len == |all| - connections && gone <= |all| && len >= 0
        invariant connected == all[gone..]
      {
        DropConnected(now);
        gone := gone + 1;
        len := len - 1;
      }
    }

    /** Fill up the connecting list. The loop ends although failed attempts do not
        count: each uses up a node that may be tried. */
    method FillUp(now: int)
      requires Sound()
      modifies this`connecting, nodeman
      ensures Sound() && (|connecting| == ParallelAttempts || Eligible(nodeman.index, now) == {})
      ensures exists more :: connecting == more + old(connecting)
    {
      hide *;
      Parts();
      var len := ParallelAttempts - |connecting|;
      ghost var more: seq<Host> := [];
      assert connecting == more + connecting;
      while len > 0
        invariant Sound() && len == ParallelAttempts - |connecting| && connecting == more + old(connecting)
        decreases |Eligible(nodeman.index, now)|
      {
        ghost var before := connecting;
        var found, begun := TryNext(now);
        if !found {
          return;
        }
        if begun {
          ghost var h := connecting[0];
          assert connecting == [h] + before;
          more := [h] + more;
          len := len - 1;
        }
      }
      Parts();
    }

    /** `sessman_maintain` */
    method Maintain(now: int)
      requires Sound()
      modifies this`connecting, this`connected, nodeman
      ensures Valid()
      ensures |old(connected)| >= connections ==> connected == old(connected)[|old(connected)| - connections..]
      ensures |old(connected)| < connections ==>
          connected == old(connected) && exists more :: connecting == more + old(connecting)
      ensures |connected| < connections ==> |connecting| == ParallelAttempts || Eligible(nodeman.index, now) == {}
    {
      hide *;
      if connections <= |connected| {
        StopConnecting(now);
        Trim(now);
      } else {
        FillUp(now);
      }
      Parts();
      FromParts();
    }

    /** `as_sessman_connect` */
    method Connect(n: nat, now: int)
      requires Valid()
      modifies this, nodeman
      ensures Valid() && connections == n
      ensures |connected| == if |old(connected)| <= n then |old(connected)| else n
    {
      hide *;
      ValidIsSound();
      connections := n;
      Maintain(now);
    }

    /** `SESSION_DISCONNECTED`: an established session ended. Its node is free and may
        be among those that are tried now. */
    method Disconnected(h: Host, now: int)
      requires Valid() && h in connected
      modifies this`connecting, this`connected, nodeman
      ensures Valid() && connected == Remove(old(connected), h) && h !in connected
      ensures exists a, b :: old(connected) == a + [h] + b && connected == a + b
      ensures exists more :: connecting == more + old(connecting)
      ensures |connecting| == ParallelAttempts || Eligible(nodeman.index, now) == {}
      ensures h in InUse(nodeman.index) <==> h in connecting
    {
      hide *;
      ValidIsSound();
      Parts();
      var weight: real := *;
      ghost var before := nodeman.index;
      InList(connecting, connected, before, h);
      SwapLists(connecting, connected, before);
      var _ := nodeman.UpdateDisconnected(h, now, weight);
      FreeOne(connected, connecting, before, h, nodeman.index[h]);
      Gone(connected, connecting, before, h);
      RemoveAt(connected, h);
      connected := Remove(connected, h);
      SwapLists(connected, connecting, nodeman.index);
      FromParts();
      Maintain(now);
      ValidIsSound();
      Parts();
      UsedBy(connecting, connected, nodeman.index, h);
    }

    /** `SESSION_FAILED`: a connection attempt failed. */
    method Failed(h: Host, now: int)
      requires Valid() && h in connecting
      modifies this`connecting, this`connected, nodeman
      ensures Valid() && connected == old(connected) && h !in connected
      ensures h !in Remove(old(connecting), h) && exists more :: connecting == more + Remove(old(connecting), h)
      ensures |connecting| == ParallelAttempts || Eligible(nodeman.index, now) == {}
      ensures h in InUse(nodeman.index) <==> h in connecting
    {
      hide *;
      ValidIsSound();
      Parts();
      var weight: real := *;
      ghost var before := nodeman.index;
      InList(connecting, connected, before, h);
      var _ := nodeman.UpdateFailed(h, weight);
      FreeOne(connecting, connected, before, h, nodeman.index[h]);
      Gone(connecting, connected, before, h);
      NotEmpty(connecting, h);
      connecting := Remove(connecting, h);
      FromParts();
      Maintain(now);
      ValidIsSound();
      Parts();
      UsedBy(connecting, connected, nodeman.index, h);
    }

    /** `SESSION_CONNECTED`: a connection attempt succeeded. Gives whether the session
        is kept. */
    method Established(h: Host, now: int) returns (kept: bool)
      requires Sound() && |connected| <= connections && h in connecting
      modifies this`connecting, this`connected, nodeman
      ensures Valid()
      ensures kept <==> |old(connected)| < connections
      ensures kept ==> connected == [h] + old(connected)
      ensures !kept ==> connected == old(connected)
    {
      hide *;
      Parts();
      var weight: real := *;
      ghost var first := nodeman.index;
      InList(connecting, connected, first, h);
      var _ := nodeman.UpdateConnected(h, now, weight);
      StillUsed(connecting, connected, first, h, nodeman.index[h]);
      kept := |connected| < connections;
      if kept {
        MoveOver(connecting, connected, nodeman.index, h);
        connecting := Remove(connecting, h);
        connected := [h] + connected;
      } else {
        var weight2: real := *;
        ghost var before := nodeman.index;
        var _ := nodeman.UpdateDisconnected(h, now, weight2);
        FreeOne(connecting, connected, before, h, nodeman.index[h]);
        connecting := Remove(connecting, h);
      }
      FromParts();
      ghost var c := connected;
      Maintain(now);
      assert |c| >= connections ==> c[|c| - connections..] == c;
    }

    /** From a valid state every established session is kept. */
    lemma AlwaysKept(h: Host)
      requires Valid() && h in connecting
      ensures |connected| < connections
    {
    }

    /** Any run of requests, session events and timer ticks. */
    method Run(events: seq<Event>)
      requires Valid()
      modifies this, nodeman
      ensures Valid()
    {
      for i := 0 to |events|
        invariant Valid()
      {
        match events[i]
        case Want(n, now) => Connect(n, now);
        case Up(h, now) => if h in connecting { var _ := Established(h, now); }
        case Refused(h, now) => if h in connecting { Failed(h, now); }
        case Down(h, now) => if h in connected { Disconnected(h, now); }
        case Tick(now) => Maintain(now);
        case Heard(h, port, now, weight) => Report(h, port, now, weight);
      }
    }

    /** A supernode was reported by another while sessions are up. */
    method Report(h: Host, port: nat, now: int, weight: real)
      requires Valid()
      modifies nodeman
      ensures Valid()
    {
      hide *;
      ValidIsSound();
      Parts();
      ReportedKeeps(connecting, connected, nodeman.index, h, port, now, weight);
      nodeman.UpdateReported(h, port, now, weight);
      FromParts();
    }

    lemma ValidIsSound()
      requires Valid()
      ensures Sound() && |connected| <= connections && (|connected| == connections ==> connecting == [])
    {
    }
  }

  datatype Event =
    | Want(n: nat, now: int)
    | Up(h: Host, now: int)
    | Refused(h: Host, now: int)
    | Down(h: Host, now: int)
    | Tick(now: int)
    | Heard(h: Host, port: nat, now: int, weight: real)

  /** `list_remove` */
  function Remove(s: seq<Host>, h: Host): seq<Host> {
    if s == [] then [] else if s[0] == h then s[1..] else [s[0]] + Remove(s[1..], h)
  }

  lemma {:induction false} RemoveFacts(s: seq<Host>, h: Host)
    requires Distinct(s)
    ensures Distinct(Remove(s, h)) && forall g :: g in Remove(s, h) <==> g in s && g != h
    ensures |Remove(s, h)| <= |s|
  {
    if s != [] {
      RemoveFacts(s[1..], h);
      assert s == [s[0]] + s[1..];
      assert s[0] !in s[1..];
      if s[0] != h {
        PrependDistinct(s[0], Remove(s[1..], h));
      }
    }
  }

  lemma {:induction false} RemoveAt(s: seq<Host>, h: Host)
    requires h in s
    ensures exists a, b :: s == a + [h] + b && Remove(s, h) == a + b
  {
    if s[0] == h {
      assert s == [] + [h] + s[1..] && s[1..] == [] + s[1..];
    } else {
      RemoveAt(s[1..], h);
      var a, b :| s[1..] == a + [h] + b && Remove(s[1..], h) == a + b;
      assert s == ([s[0]] + a) + [h] + b && Remove(s, h) == ([s[0]] + a) + b;
    }
  }

  lemma {:induction false} RemoveOne(s: seq<Host>, h: Host)
    requires h in s
    ensures |Remove(s, h)| == |s| - 1
  {
    if s[0] != h {
      RemoveOne(s[1..], h);
    }
  }

  lemma Gone(a: seq<Host>, b: seq<Host>, index: Nodes, h: Host)
    requires Consistent(a, b, index) && h in a
    ensures |Remove(a, h)| == |a| - 1 && h !in Remove(a, h) && h !in b
  {
    RemoveFacts(a, h);
    RemoveOne(a, h);
  }

  lemma NotEmpty(a: seq<Host>, h: Host)
    requires h in a
    ensures a != []
  {
  }

  lemma UsedBy(a: seq<Host>, b: seq<Host>, index: Nodes, h: Host)
    requires Consistent(a, b, index) && h !in b
    ensures h in InUse(index) <==> h in a
  {
  }

  lemma PrependDistinct(h: Host, s: seq<Host>)
    requires Distinct(s) && h !in s
    ensures Distinct([h] + s)
  {
    var l := [h] + s;
    forall i, j | 0 <= i < j < |l|
      ensures l[i] != l[j]
    {
      assert l[j] == s[j - 1] && s[j - 1] in s;
      if i > 0 {
        assert l[i] == s[i - 1];
      }
    }
  }

  lemma InList(a: seq<Host>, b: seq<Host>, index: Nodes, h: Host)
    requires Consistent(a, b, index) && (h in a || h in b)
    ensures h in index
  {
    assert h in InUse(index);
  }

  /** Session `h` of a list ends. */
  lemma FreeOne(a: seq<Host>, b: seq<Host>, index: Nodes, h: Host, n: Node)
    requires Consistent(a, b, index) && h in a && !n.inUse
    ensures Consistent(Remove(a, h), b, index[h := n]) && |Remove(a, h)| <= |a|
  {
    RemoveFacts(a, h);
    forall g
      ensures g in Remove(a, h) || g in b <==> g in InUse(index[h := n])
    {
      assert g in a || g in b <==> g in InUse(index);
    }
  }

  lemma StillUsed(a: seq<Host>, b: seq<Host>, index: Nodes, h: Host, n: Node)
    requires Consistent(a, b, index) && h in a && h in index && n.inUse == index[h].inUse
    ensures Consistent(a, b, index[h := n])
  {
    assert InUse(index[h := n]) == InUse(index);
  }

  lemma MoveOver(a: seq<Host>, b: seq<Host>, index: Nodes, h: Host)
    requires Consistent(a, b, index) && h in a
    ensures Consistent(Remove(a, h), [h] + b, index) && |Remove(a, h)| <= |a|
  {
    RemoveFacts(a, h);
    PrependDistinct(h, b);
  }

  lemma ReportedKeeps(a: seq<Host>, b: seq<Host>, index: Nodes, h: Host, port: nat, now: int, weight: real)
    requires Consistent(a, b, index)
    ensures Consistent(a, b, index[h := Reported(index, h, port, now, weight)])
  {
    assert InUse(index[h := Reported(index, h, port, now, weight)]) == InUse(index);
  }

  lemma HeadInUse(a: seq<Host>, b: seq<Host>, index: Nodes)
    requires Consistent(a, b, index) && a != []
    ensures a[0] in index
  {
    assert a[0] in a;
    assert a[0] in InUse(index);
  }

  lemma SwapLists(a: seq<Host>, b: seq<Host>, index: Nodes)
    requires Consistent(a, b, index)
    ensures Consistent(b, a, index)
  {
  }

  /** The first session of a list ends. */
  lemma FreeConnecting(a: seq<Host>, b: seq<Host>, index: Nodes, n: Node)
    requires Consistent(a, b, index) && a != [] && !n.inUse
    ensures Consistent(a[1..], b, index[a[0] := n])
  {
    var h := a[0];
    assert a == [h] + a[1..];
    forall g
      ensures g in a[1..] || g in b <==> g in InUse(index[h := n])
    {
      assert g in a <==> g == h || g in a[1..];
      if g in InUse(index[h := n]) {
        assert g in InUse(index);
      }
      if g in a[1..] || g in b {
        assert g in InUse(index);
      }
      assert h !in a[1..] && h !in b;
    }
  }

  lemma NextCounts(index: Nodes, h: Host, now: int)
    requires h in Eligible(index, now)
    ensures h in index && |Eligible(index[h := Tried(index[h], now)], now)| == |Eligible(index, now)| - 1
    ensures Eligible(index, now) != {}
  {
    TriedFacts(index, h, now);
  }

  /** A node that is marked as tried and given back. */
  lemma FailedAgain(index: Nodes, a: seq<Host>, b: seq<Host>, h: Host, now: int, weight: real)
    requires Consistent(a, b, index) && h in Eligible(index, now)
    ensures h in index
    ensures var n := Tried(index[h], now).(inUse := false, weight := weight);
      var m := index[h := Tried(index[h], now)];
      Consistent(a, b, m[h := n]) && Eligible(m[h := n], now) == Eligible(m, now)
  {
    var m := index[h := Tried(index[h], now)];
    var n := Tried(index[h], now).(inUse := false, weight := weight);
    assert InUse(m[h := n]) == InUse(index);
    TriedFacts(index, h, now);
  }

  lemma BeginConnecting(index: Nodes, a: seq<Host>, b: seq<Host>, h: Host, now: int)
    requires Consistent(a, b, index) && h in Eligible(index, now)
    ensures h in index && Consistent([h] + a, b, index[h := Tried(index[h], now)])
  {
    TriedFacts(index, h, now);
    assert h !in InUse(index);
    PrependDistinct(h, a);
  }
}
