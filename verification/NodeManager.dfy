/** The node cache of gift-ares/lib/as_node_man.c: hosts to connect to, best first.

    The hash index takes a host to its record; the list holds the hosts in order.
    Weights are computed by a formula of no further interest here: each new weight
    is a parameter. */
module NodeManager {
  import opened Wrappers
  import opened Ordering
  import opened Listing

  type Host = nat

  datatype Node = Node(port: nat, firstSeen: int, lastSeen: int, lastAttempt: int,
    attempts: nat, connects: nat, reports: nat, inUse: bool, weight: real)

  type Nodes = map<Host, Node>

  /** What `node_connect_cmp` reads of a node. */
  datatype Place = Place(inUse: bool, weight: real)

  /** Unused nodes first, then the heaviest. */
  function PlaceCmp(a: Place, b: Place): int {
    if a.inUse != b.inUse then if a.inUse then 1 else -1
    else if a.weight == b.weight then 0
    else if a.weight < b.weight then 1
    else -1
  }

  lemma PlaceIsComparison()
    ensures Comparison(PlaceCmp)
  {
  }

  function PlaceOf(index: Nodes): Host -> Place {
    h => if h in index then Place(index[h].inUse, index[h].weight) else Place(false, 0.0)
  }

  /** 10 * EMINUTES */
  const RetryTime: int := 600

  predicate Fresh(n: Node, now: int) { !n.inUse && now - n.lastAttempt > RetryTime }

  /** The hosts that may be tried now. */
  ghost function Eligible(index: Nodes, now: int): set<Host> {
    set h | h in index && Fresh(index[h], now)
  }

  ghost function InUse(index: Nodes): set<Host> {
    set h | h in index && index[h].inUse
  }

  function Tried(n: Node, now: int): Node {
    n.(lastAttempt := now, attempts := n.attempts + 1, inUse := true)
  }

  class NodeMan {
    var nodes: seq<Host>
    var index: Nodes

    /** Index and list hold the same nodes, and the list is sorted. */
    ghost predicate Valid()
      reads this
    {
      Listed(nodes, index) && Sorted(nodes, PlaceOf(index), PlaceCmp)
    }

    constructor ()
      ensures Valid() && index == map[]
    {
      nodes, index := [], map[];
    }

    /** `list_unlink_link`, an update of the node, `list_insert_link_sorted`. */
    method Move(h: Host, n: Node)
      requires Valid() && h in index
      modifies this
      ensures Valid() && index == old(index)[h := n]
    {
      hide *;
      Parts();
      var k := PositionOf(h);
      WithoutListed(nodes, index, k);
      WithoutSorted(nodes, PlaceOf(index), PlaceCmp, k);
      nodes := Without(nodes, k);
      Put(h, n);
    }

    method PositionOf(h: Host) returns (k: nat)
      requires h in nodes
      ensures k < |nodes| && nodes[k] == h
    {
      k := 0;
      while nodes[k] != h
        invariant k < |nodes| && h in nodes[k..]
        decreases |nodes| - k
      {
        k := k + 1;
      }
    }

    /** Insert a node that is not in the list at its place. */
    method Put(h: Host, n: Node)
      requires Listed(nodes, index - {h}) && Sorted(nodes, PlaceOf(index), PlaceCmp)
      modifies this
      ensures Valid() && index == old(index)[h := n]
      ensures nodes == Insert(old(nodes), PlaceOf(index), PlaceCmp, h)
    {
      hide *;
      SameAfter(nodes, index, h, n);
      SortedUnder(nodes, PlaceOf(index), PlaceOf(index[h := n]), PlaceCmp);
      index := index[h := n];
      InsertListed(nodes, index, PlaceOf(index), PlaceCmp, h);
      PlaceIsComparison();
      InsertKeepsSorted(nodes, PlaceOf(index), PlaceCmp, h);
      nodes := Insert(nodes, PlaceOf(index), PlaceCmp, h);
      FromParts();
    }

    lemma Parts()
      requires Valid()
      ensures Listed(nodes, index) && Sorted(nodes, PlaceOf(index), PlaceCmp)
      ensures forall h :: h in index <==> h in nodes
    {
    }

    lemma FromParts()
      requires Listed(nodes, index) && Sorted(nodes, PlaceOf(index), PlaceCmp)
      ensures Valid()
    {
    }

    /** `as_nodeman_next`: the best of the nodes that may be tried. */
    method Next(now: int) returns (r: Option<Host>)
      requires Valid()
      modifies this
      ensures Valid()
      ensures r.None? <==> Eligible(old(index), now) == {}
      ensures r.None? ==> index == old(index)
      ensures r.Some? ==>
        r.value in Eligible(old(index), now) && index == old(index)[r.value := Tried(old(index)[r.value], now)]
      ensures r.Some? ==> forall g :: g in Eligible(old(index), now) ==>
          old(index)[g].weight <= old(index)[r.value].weight
      ensures r.Some? ==> var n := old(index)[r.value];
        && !n.inUse && now - n.lastAttempt > 600
        && index[r.value] == n.(lastAttempt := now, attempts := n.attempts + 1, inUse := true)
      ensures r.None? ==> forall g :: g in index ==> index[g].inUse || now - index[g].lastAttempt <= 600
      ensures r.Some? ==>
        Eligible(index, now) == Eligible(old(index), now) - {r.value} && InUse(index) == InUse(old(index)) + {r.value}
    {
      hide *;
      Parts();
      var k := 0;
      NoneFreshNext(nodes, index, 0, now);
      while k < |nodes|
        invariant Valid() && nodes == old(nodes) && index == old(index)
        invariant k <= |nodes| && NoneFresh(nodes, index, k, now)
      {
        ListedAt(nodes, index, k);
        NoneFreshNext(nodes, index, k, now);
        if Fresh(index[nodes[k]], now) {
          var h := nodes[k];
          FirstIsBest(nodes, index, k, now);
          TriedFacts(index, h, now);
          FreshMeans(index[h], now);
          Move(h, Tried(index[h], now));
          return Some(h);
        }
        k := k + 1;
      }
      NoneAtAll(nodes, index, now);
      NoneEligible(index, now);
      r := None;
    }

    /** `as_nodeman_update_connected` */
    method UpdateConnected(h: Host, now: int, weight: real) returns (found: bool)
      requires Valid()
      modifies this
      ensures Valid() && found == (h in old(index))
      ensures index == if found then old(index)[h := old(index)[h].(lastSeen := now,
          connects := old(index)[h].connects + 1, weight := weight)] else old(index)
    {
      if h !in index {
        return false;
      }
      Move(h, index[h].(lastSeen := now, connects := index[h].connects + 1, weight := weight));
      found := true;
    }

    /** `as_nodeman_update_failed` */
    method UpdateFailed(h: Host, weight: real) returns (found: bool)
      requires Valid()
      modifies this
      ensures Valid() && found == (h in old(index))
      ensures index == if found then old(index)[h := old(index)[h].(inUse := false, weight := weight)] else old(index)
    {
      if h !in index {
        return false;
      }
      Move(h, index[h].(inUse := false, weight := weight));
      found := true;
    }

    /** `as_nodeman_update_disconnected` */
    method UpdateDisconnected(h: Host, now: int, weight: real) returns (found: bool)
      requires Valid()
      modifies this
      ensures Valid() && found == (h in old(index))
      ensures index == if found then old(index)[h := old(index)[h].(lastSeen := now, inUse := false,
          weight := weight)] else old(index)
    {
      if h !in index {
        return false;
      }
      Move(h, index[h].(lastSeen := now, inUse := false, weight := weight));
      found := true;
    }

    /** `as_nodeman_update_reported`: a node that is not known yet is added. */
    method UpdateReported(h: Host, port: nat, now: int, weight: real)
      requires Valid()
      modifies this
      ensures Valid() && index == old(index)[h := Reported(old(index), h, port, now, weight)]
      ensures h in old(index) ==>
        index[h] == old(index)[h].(lastSeen := now, reports := old(index)[h].reports + 1, port := port,
            weight := weight)
      ensures h !in old(index) ==>
        && index[h].firstSeen == index[h].lastSeen == now && index[h].lastAttempt == 0 && index[h].reports == 1
        && index[h].attempts == index[h].connects == 0 && !index[h].inUse
        && index[h].port == port && index[h].weight == weight
    {
      if h in index {
        Move(h, Reported(index, h, port, now, weight));
      } else {
        assert index - {h} == index;
        Put(h, Reported(index, h, port, now, weight));
      }
    }

    /** One line of `as_nodeman_load`, for a host that is not known yet. */
    method LoadNode(h: Host, n: Node)
      requires Valid() && h !in index && !n.inUse
      modifies this
      ensures Valid() && index == old(index)[h := n]
    {
      assert index - {h} == index;
      Put(h, n);
    }
  }

  function Reported(index: Nodes, h: Host, port: nat, now: int, weight: real): Node {
    var n := if h in index then index[h] else Node(port, now, now, 0, 0, 0, 0, false, 0.0);
    n.(lastSeen := now, reports := n.reports + 1, port := port, weight := weight)
  }

  lemma SameAfter(nodes: seq<Host>, index: Nodes, h: Host, n: Node)
    requires Listed(nodes, index - {h})
    ensures forall g :: g in nodes ==> PlaceOf(index)(g) == PlaceOf(index[h := n])(g)
    ensures h in index[h := n] && Listed(nodes, index[h := n] - {h})
  {
    assert index[h := n] - {h} == index - {h};
  }

  ghost predicate NoneFresh(nodes: seq<Host>, index: Nodes, k: nat, now: int) {
    forall i :: 0 <= i < k && i < |nodes| && nodes[i] in index ==> !Fresh(index[nodes[i]], now)
  }

  lemma NoneFreshNext(nodes: seq<Host>, index: Nodes, k: nat, now: int)
    ensures NoneFresh(nodes, index, 0, now)
    ensures NoneFresh(nodes, index, k, now) && k < |nodes| && nodes[k] in index && !Fresh(index[nodes[k]], now) ==>
        NoneFresh(nodes, index, k + 1, now)
  {
  }

  lemma NoneAtAll(nodes: seq<Host>, index: Nodes, now: int)
    requires Listed(nodes, index) && NoneFresh(nodes, index, |nodes|, now)
    ensures Eligible(index, now) == {}
  {
  }

  /** The first node that may be tried is the heaviest such node. */
  lemma FirstIsBest(nodes: seq<Host>, index: Nodes, k: nat, now: int)
    requires Listed(nodes, index) && Sorted(nodes, PlaceOf(index), PlaceCmp) && NoneFresh(nodes, index, k, now)
    requires k < |nodes| && nodes[k] in index && Fresh(index[nodes[k]], now)
    ensures nodes[k] in Eligible(index, now)
    ensures forall g :: g in Eligible(index, now) ==> index[g].weight <= index[nodes[k]].weight
  {
    forall g | g in Eligible(index, now)
      ensures index[g].weight <= index[nodes[k]].weight
    {
      var j :| 0 <= j < |nodes| && nodes[j] == g;
      if j > k {
        assert PlaceCmp(PlaceOf(index)(nodes[k]), PlaceOf(index)(nodes[j])) <= 0;
      }
    }
  }

  lemma FreshMeans(n: Node, now: int)
    ensures Fresh(n, now) ==> !n.inUse && now - n.lastAttempt > 600
    ensures Tried(n, now) == n.(lastAttempt := now, attempts := n.attempts + 1, inUse := true)
  {
  }

  lemma NoneEligible(index: Nodes, now: int)
    requires Eligible(index, now) == {}
    ensures forall g :: g in index ==> index[g].inUse || now - index[g].lastAttempt <= 600
  {
    forall g | g in index
      ensures index[g].inUse || now - index[g].lastAttempt <= 600
    {
      assert g !in Eligible(index, now);
    }
  }

  lemma TriedFacts(index: Nodes, h: Host, now: int)
    requires h in index
    ensures Eligible(index[h := Tried(index[h], now)], now) == Eligible(index, now) - {h}
    ensures InUse(index[h := Tried(index[h], now)]) == InUse(index) + {h}
  {
  }
}
