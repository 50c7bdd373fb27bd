/** The chained, growing hash table of gift-ares/lib/as_hashtable.c. Keys are
    compared with `==`; the hash function is arbitrary. */
module HashTables {
  import opened Wrappers

  class Entry<K(==), V> {
    const key: K
    const h: nat
    var val: V
    var next: Entry?<K, V>

    constructor (key: K, h: nat, val: V)
      ensures this.key == key && this.h == h && this.val == val && this.next == null
    {
      this.key, this.h, this.val, this.next := key, h, val, null;
    }
  }

  // -------------------------------------------------------------------- a chain

  ghost function At<K, V>(s: seq<Entry<K, V>>, i: nat): Entry?<K, V> {
    if i < |s| then s[i] else null
  }

  /** `head` is the first of the entries `s`, linked in this order. */
  ghost predicate Chain<K, V>(head: Entry?<K, V>, s: seq<Entry<K, V>>)
    reads s`next
  {
    head == At(s, 0) && forall i: nat {:trigger s[i].next} :: i < |s| ==> s[i].next == At(s, i + 1)
  }

  // ----------------------------------------------------------------- the buckets

  function IndexFor(tableLength: nat, hashValue: nat): (i: nat)
    requires tableLength > 0
    ensures i < tableLength
  {
    hashValue % tableLength
  }

  /** The chains hold every node once, each in the bucket its hash value says. */
  ghost predicate Placed<K, V>(c: seq<seq<Entry<K, V>>>, nodes: set<Entry<K, V>>) {
    && |c| > 0
    && (forall i: nat, p: nat {:trigger c[i][p]} :: i < |c| && p < |c[i]| ==>
        c[i][p] in nodes && IndexFor(|c|, c[i][p].h) == i)
    && (forall e :: e in nodes ==> e in c[IndexFor(|c|, e.h)])
    && (forall i: nat, p: nat, q: nat {:trigger c[i][p], c[i][q]} :: i < |c| && p < q < |c[i]| ==> c[i][p] != c[i][q])
  }

  /** Every entry is in the bucket of its hash value modulo the number of buckets. */
  lemma BucketOfHash<K, V>(c: seq<seq<Entry<K, V>>>, nodes: set<Entry<K, V>>)
    requires Placed(c, nodes)
    ensures forall i: nat, e :: i < |c| && e in c[i] ==> e.h % |c| == i
  {
    forall i: nat, e | i < |c| && e in c[i]
      ensures e.h % |c| == i
    {
      var p :| 0 <= p < |c[i]| && c[i][p] == e;
      assert IndexFor(|c|, c[i][p].h) == i;
    }
  }

  /** The array holds the heads of the chains. */
  ghost predicate Linked<K, V>(table: array<Entry?<K, V>>, c: seq<seq<Entry<K, V>>>, nodes: set<Entry<K, V>>)
    requires Placed(c, nodes)
    reads table, nodes`next
  {
    table.Length == |c| && forall i: nat :: i < |c| ==> Within(c[i], nodes) && Chain(table[i], c[i])
  }

  ghost predicate Within<K, V>(s: seq<Entry<K, V>>, nodes: set<Entry<K, V>>) {
    forall e :: e in s ==> e in nodes
  }

  /** One entry per key, with the right hash value. */
  ghost predicate Keyed<K, V>(nodes: set<Entry<K, V>>, hash: K -> nat) {
    && (forall e :: e in nodes ==> e.h == hash(e.key))
    && (forall e, f :: e in nodes && f in nodes && e.key == f.key ==> e == f)
  }

  /** The entries hold the map `m`. */
  ghost predicate Stores<K, V>(nodes: set<Entry<K, V>>, m: map<K, V>)
    reads nodes`val
  {
    && (forall e :: e in nodes ==> e.key in m && m[e.key] == e.val)
    && (forall k :: k in m ==> exists e :: e in nodes && e.key == k)
  }

  lemma PlacedPush<K, V>(c: seq<seq<Entry<K, V>>>, nodes: set<Entry<K, V>>, e: Entry<K, V>)
    requires Placed(c, nodes) && e !in nodes
    ensures var i := IndexFor(|c|, e.h); Placed(c[i := [e] + c[i]], nodes + {e})
  {
    var i := IndexFor(|c|, e.h);
    var d := c[i := [e] + c[i]];
    forall j: nat, p: nat | j < |d| && p < |d[j]|
      ensures d[j][p] in nodes + {e} && IndexFor(|d|, d[j][p].h) == j
    {
      assert if j == i then (if p == 0 then d[j][p] == e else d[j][p] == c[j][p - 1]) else d[j][p] == c[j][p];
    }
    forall f | f in nodes + {e}
      ensures f in d[IndexFor(|d|, f.h)]
    {
      if f != e {
        var j := IndexFor(|c|, f.h);
        var p :| 0 <= p < |c[j]| && c[j][p] == f;
        assert if j == i then d[j][p + 1] == f else d[j][p] == f;
      } else {
        assert d[i][0] == e;
      }
    }
    forall j: nat, p: nat, q: nat | j < |d| && p < q < |d[j]|
      ensures d[j][p] != d[j][q]
    {
      if j == i {
        assert d[j][q] == c[j][q - 1];
        assert p > 0 ==> d[j][p] == c[j][p - 1];
      } else {
        assert d[j][p] == c[j][p] && d[j][q] == c[j][q];
      }
    }
  }

  /** The chain without its entry at `p`. */
  function Drop<A>(s: seq<A>, p: nat): seq<A>
    requires p < |s|
  {
    s[..p] + s[p + 1..]
  }

  /** Where an entry of the shorter list was before. */
  function Before(j: nat, r: nat, i: nat, p: nat): nat { if j == i && r >= p then r + 1 else r }

  lemma DropAt<A>(c: seq<seq<A>>, i: nat, p: nat, j: nat, r: nat)
    requires i < |c| && p < |c[i]| && j < |c| && r < |c[i := Drop(c[i], p)][j]|
    ensures Before(j, r, i, p) < |c[j]| && c[i := Drop(c[i], p)][j][r] == c[j][Before(j, r, i, p)]
    ensures j == i ==> Before(j, r, i, p) != p
  {
  }

  lemma DropStays<A>(c: seq<seq<A>>, i: nat, p: nat, j: nat, r: nat)
    requires i < |c| && p < |c[i]| && j < |c| && r < |c[j]| && (j == i ==> r != p)
    ensures c[j][r] in c[i := Drop(c[i], p)][j]
  {
    var d := c[i := Drop(c[i], p)];
    if j == i {
      assert d[j][if r < p then r else r - 1] == c[j][r];
    } else {
      assert d[j][r] == c[j][r];
    }
  }

  lemma OnePlace<K, V>(c: seq<seq<Entry<K, V>>>, nodes: set<Entry<K, V>>, i: nat, p: nat, j: nat, r: nat)
    requires Placed(c, nodes) && i < |c| && p < |c[i]| && j < |c| && r < |c[j]|
    ensures c[i][p] in nodes && c[j][r] in nodes && IndexFor(|c|, c[j][r].h) == j
    ensures c[i][p] == c[j][r] ==> i == j && p == r
  {
    assert IndexFor(|c|, c[i][p].h) == i && IndexFor(|c|, c[j][r].h) == j;
  }

  lemma PlacedDrop<K, V>(c: seq<seq<Entry<K, V>>>, nodes: set<Entry<K, V>>, i: nat, p: nat)
    requires Placed(c, nodes) && i < |c| && p < |c[i]|
    ensures Placed(c[i := Drop(c[i], p)], nodes - {c[i][p]})
  {
    hide Drop, IndexFor, Before;
    var d, e := c[i := Drop(c[i], p)], c[i][p];
    forall j: nat, r: nat | j < |d| && r < |d[j]|
      ensures d[j][r] in nodes - {e} && IndexFor(|d|, d[j][r].h) == j
    {
      DropAt(c, i, p, j, r);
      OnePlace(c, nodes, i, p, j, Before(j, r, i, p));
    }
    forall f | f in nodes - {e}
      ensures f in d[IndexFor(|d|, f.h)]
    {
      var j := IndexFor(|c|, f.h);
      var r: nat :| r < |c[j]| && c[j][r] == f;
      DropStays(c, i, p, j, r);
    }
    forall j: nat, r: nat, q: nat | j < |d| && r < q < |d[j]|
      ensures d[j][r] != d[j][q]
    {
      DropAt(c, i, p, j, r);
      DropAt(c, i, p, j, q);
      BeforeKeepsOrder(j, r, q, i, p);
      OnePlace(c, nodes, j, Before(j, r, i, p), j, Before(j, q, i, p));
    }
  }

  lemma BeforeKeepsOrder(j: nat, r: nat, q: nat, i: nat, p: nat)
    requires r < q
    ensures Before(j, r, i, p) < Before(j, q, i, p)
  {
  }

  lemma PlacedIn<K, V>(c: seq<seq<Entry<K, V>>>, nodes: set<Entry<K, V>>, i: nat)
    requires Placed(c, nodes) && i < |c|
    ensures Within(c[i], nodes) && forall p: nat :: p < |c[i]| ==> c[i][p] in nodes
    ensures forall p: nat, q: nat :: p < q < |c[i]| ==> c[i][p] != c[i][q]
  {
    forall e | e in c[i]
      ensures e in nodes
    {
      var p :| 0 <= p < |c[i]| && c[i][p] == e;
    }
  }

  /** Different buckets share no entry. */
  lemma PlacedApart<K, V>(c: seq<seq<Entry<K, V>>>, nodes: set<Entry<K, V>>, i: nat, j: nat)
    requires Placed(c, nodes) && i < |c| && j < |c| && i != j
    ensures forall e :: e in c[i] ==> e !in c[j]
  {
    InBucket(c, nodes, i);
    InBucket(c, nodes, j);
  }

  lemma InBucket<K, V>(c: seq<seq<Entry<K, V>>>, nodes: set<Entry<K, V>>, i: nat)
    requires Placed(c, nodes) && i < |c|
    ensures forall e :: e in c[i] ==> IndexFor(|c|, e.h) == i
  {
    forall e | e in c[i]
      ensures IndexFor(|c|, e.h) == i
    {
      var p :| 0 <= p < |c[i]| && c[i][p] == e;
    }
  }

  // --------------------------------------------------------------- moving entries

  /** Put `e` at the front of bucket `IndexFor(table.Length, e.h)`. */
  method PushEntry<K, V>(table: array<Entry?<K, V>>, e: Entry<K, V>, ghost c: seq<seq<Entry<K, V>>>,
      ghost nodes: set<Entry<K, V>>)
    returns (ghost d: seq<seq<Entry<K, V>>>)
    requires Placed(c, nodes) && Linked(table, c, nodes) && e !in nodes
    modifies table, e`next
    ensures Placed(d, nodes + {e}) && Linked(table, d, nodes + {e}) && |d| == |c|
  {
    hide Placed;
    PlacedSize(c, nodes);
    var i := IndexFor(table.Length, e.h);
    e.next := table[i];
    table[i] := e;
    d := c[i := [e] + c[i]];
    PlacedPush(c, nodes, e);
    PlacedIn(c, nodes, i);
    forall j: nat | j < |d|
      ensures Within(d[j], nodes + {e}) && Chain(table[j], d[j])
    {
      PlacedIn(c, nodes, j);
      PlacedIn(d, nodes + {e}, j);
    }
  }

  lemma PlacedSize<K, V>(c: seq<seq<Entry<K, V>>>, nodes: set<Entry<K, V>>)
    requires Placed(c, nodes)
    ensures |c| > 0
  {
  }

  ghost predicate Dropped<A>(c: seq<seq<A>>, d: seq<seq<A>>, i: nat, p: nat) {
    i < |c| && p < |c[i]| && d == c[i := Drop(c[i], p)]
  }

  lemma DroppedMeans<A>(c: seq<seq<A>>, d: seq<seq<A>>, i: nat, p: nat)
    ensures Dropped(c, d, i, p) ==> i < |c| && p < |c[i]| && d == c[i := Drop(c[i], p)]
  {
  }

  /** Take the entry at position `p` of bucket `i` out; `prev` is the one before it,
      if there is one. */
  method UnlinkEntry<K, V>(table: array<Entry?<K, V>>, i: nat, prev: Entry?<K, V>, e: Entry<K, V>,
      ghost p: nat, ghost c: seq<seq<Entry<K, V>>>, ghost nodes: set<Entry<K, V>>)
    returns (ghost d: seq<seq<Entry<K, V>>>)
    requires Placed(c, nodes) && Linked(table, c, nodes) && i < |c| && p < |c[i]| && e == c[i][p]
    requires if p == 0 then prev == null else prev == c[i][p - 1]
    modifies table, nodes`next
    ensures Placed(d, nodes - {e}) && Linked(table, d, nodes - {e}) && Dropped(c, d, i, p)
    ensures e.next == old(e.next) && forall f :: f in nodes && f != prev ==> f.next == old(f.next)
  {
    hide Placed;
    ghost var s := c[i];
    d := c[i := Drop(c[i], p)];
    PlacedIn(c, nodes, i);
    PlacedDrop(c, nodes, i, p);
    if prev == null {
      table[i] := e.next;
    } else {
      prev.next := e.next;
    }
    forall j: nat | j < |d|
      ensures Within(d[j], nodes - {e}) && Chain(table[j], d[j])
    {
      PlacedIn(c, nodes, j);
      PlacedIn(d, nodes - {e}, j);
      if j != i {
        PlacedApart(c, nodes, i, j);
      }
    }
  }

  lemma NotThere<K, V>(c: seq<seq<Entry<K, V>>>, nodes: set<Entry<K, V>>, hash: K -> nat, i: nat, k: K)
    requires Placed(c, nodes) && Keyed(nodes, hash) && |c| > 0 && i == IndexFor(|c|, hash(k))
    requires forall q: nat :: q < |c[i]| ==> c[i][q].key != k
    ensures forall f :: f in nodes ==> f.key != k
  {
    forall f | f in nodes
      ensures f.key != k
    {
      if IndexFor(|c|, f.h) == i {
        var q :| 0 <= q < |c[i]| && c[i][q] == f;
      }
    }
  }

  // --------------------------------------------------------------- the table sizes

  const Primes: seq<nat> := [
    53, 97, 193, 389, 769, 1543, 3079, 6151, 12289, 24593, 49157, 98317, 196613, 393241, 786433, 1572869,
    3145739, 6291469, 12582917, 25165843, 50331653, 100663319, 201326611, 402653189, 805306457, 1610612741]

  /** The least whole number that is not below 0.65 times the size. */
  function LoadLimit(size: nat): nat { (65 * size + 99) / 100 }

  lemma LoadLimitIsLeast(size: nat)
    ensures 100 * LoadLimit(size) >= 65 * size > 100 * (LoadLimit(size) - 1)
  {
  }

  lemma Grows(i: nat)
    ensures i + 1 < |Primes| ==> LoadLimit(Primes[i]) < LoadLimit(Primes[i + 1])
  {
  }

  class HashTable<K(==), V> {
    const hash: K -> nat
    var table: array<Entry?<K, V>>
    var primeIndex: nat
    var entryCount: nat
    var loadLimit: nat
    ghost var chains: seq<seq<Entry<K, V>>>
    ghost var nodes: set<Entry<K, V>>
    /** The map the table stands for. */
    ghost var contents: map<K, V>

    ghost predicate Valid()
      reads this, table, nodes
    {
      && Placed(chains, nodes) && Linked(table, chains, nodes)
      && Keyed(nodes, hash) && Stores(nodes, contents)
      && entryCount == |contents|
      && Sized() && Roomy()
    }

    /** The load factor stays below 0.65 as long as there is a larger table. */
    ghost predicate Roomy()
      reads this`entryCount, this`primeIndex, this`loadLimit
    {
      entryCount <= loadLimit || primeIndex == |Primes| - 1
    }

    lemma RoomyMeans()
      ensures Roomy() <==> entryCount <= loadLimit || primeIndex == |Primes| - 1
    {
    }

    ghost predicate Sized()
      reads this`table, this`primeIndex, this`loadLimit
    {
      primeIndex < |Primes| && table.Length == Primes[primeIndex] && loadLimit == LoadLimit(table.Length)
    }

    /** `hashtable_new (1, ...)`. */
    constructor (hash: K -> nat)
      ensures Valid() && contents == map[] && nodes == {} && this.hash == hash && fresh(table)
    {
      this.hash := hash;
      primeIndex, entryCount := 0, 0;
      var t: array<Entry?<K, V>> := new Entry?<K, V>[53](_ => null);
      table := t;
      loadLimit := LoadLimit(53);
      chains, nodes, contents := seq(53, _ => []), {}, map[];
    }

    /** Walk chain `i` for an entry with hash value `hv` and key `k`; `prev` is the
        entry before it. */
    method Walk(i: nat, hv: nat, k: K) returns (prev: Entry?<K, V>, e: Entry?<K, V>, ghost p: nat)
      requires Placed(chains, nodes) && Linked(table, chains, nodes) && Keyed(nodes, hash)
      requires hv == hash(k) && i == IndexFor(|chains|, hv)
      ensures i < |chains| && p <= |chains[i]| && e == At(chains[i], p)
      ensures if p == 0 then prev == null else prev == chains[i][p - 1]
      ensures e != null ==> e.key == k && e in nodes
      ensures e == null ==> forall f :: f in nodes ==> f.key != k
    {
      ghost var s := chains[i];
      PlacedIn(chains, nodes, i);
      prev, e, p := null, table[i], 0;
      while e != null
        invariant p <= |s| && e == At(s, p)
        invariant if p == 0 then prev == null else prev == s[p - 1]
        invariant forall q: nat :: q < p ==> s[q].key != k
        decreases |s| - p
      {
        if hv == e.h && k == e.key {
          return;
        }
        prev, e, p := e, e.next, p + 1;
      }
      NotThere(chains, nodes, hash, i, k);
    }

    /** `hashtable_search`. */
    method Search(k: K) returns (r: Option<V>)
      requires Valid()
      ensures r == if k in contents then Some(contents[k]) else None
    {
      var hv := hash(k);
      var _, e, _ := Walk(IndexFor(table.Length, hv), hv, k);
      r := if e != null then Some(e.val) else None;
    }

    lemma Parts()
      requires Valid()
      ensures Placed(chains, nodes) && Linked(table, chains, nodes) && |chains| > 0 && table.Length == |chains|
      ensures Keyed(nodes, hash) && Stores(nodes, contents) && entryCount == |contents| && Sized() && Roomy()
    {
    }

    lemma FromParts()
      requires Placed(chains, nodes) && Linked(table, chains, nodes)
      requires Keyed(nodes, hash) && Stores(nodes, contents) && entryCount == |contents| && Sized() && Roomy()
      ensures Valid()
    {
    }

    lemma SizedMeans()
      ensures Sized() <==>
        primeIndex < |Primes| && table.Length == Primes[primeIndex] && loadLimit == LoadLimit(table.Length)
      ensures |Primes| == 26 && forall i: nat :: i < |Primes| ==> Primes[i] > 0
    {
    }

    /** `hashtable_expand`: the next larger table, if there is one. The entries move
        over bucket by bucket. */
    method Expand()
      requires Placed(chains, nodes) && Linked(table, chains, nodes) && Sized()
      modifies this`table, this`primeIndex, this`loadLimit, this`chains, table, nodes`next
      ensures Placed(chains, nodes) && Linked(table, chains, nodes) && Sized()
      ensures table == old(table) || fresh(table)
      ensures primeIndex == if old(primeIndex) == |Primes| - 1 then old(primeIndex) else old(primeIndex) + 1
      ensures if primeIndex == old(primeIndex) then loadLimit == old(loadLimit) else loadLimit > old(loadLimit)
    {
      hide *;
      SizedMeans();
      Grows(primeIndex);
      if primeIndex == |Primes| - 1 {
        return;
      }
      primeIndex := primeIndex + 1;
      var newSize := Primes[primeIndex];
      var t: array<Entry?<K, V>> := new Entry?<K, V>[newSize](_ => null);
      ghost var a: seq<seq<Entry<K, V>>>, na := chains, nodes;
      ghost var b: seq<seq<Entry<K, V>>>, nb: set<Entry<K, V>> := seq(newSize, _ => []), {};
      NothingPlaced(t, b);
      var table0 := table;
      LinkedSize(table0, a, na);
      for i := 0 to table0.Length
        invariant table == table0 && chains == old(chains) && primeIndex == old(primeIndex) + 1
        invariant t != table0 && fresh(t) && t.Length == newSize
        invariant |a| == table0.Length && |b| == newSize && na + nb == nodes && na !! nb && na <= nodes
        invariant Placed(a, na) && Linked(table0, a, na) && Placed(b, nb) && Linked(t, b, nb)
        invariant forall j: nat :: j < i ==> a[j] == []
      {
        a, na, b, nb := MoveBucket(table0, i, t, a, na, b, nb);
      }
      AllMoved(a, na);
      table, chains := t, b;
      loadLimit := LoadLimit(newSize);
      SizedMeans();
    }

    /** Take entry `e` out of its bucket. */
    method TakeOut(index: nat, prev: Entry?<K, V>, e: Entry<K, V>, ghost p: nat)
      requires Placed(chains, nodes) && Linked(table, chains, nodes) && Keyed(nodes, hash) && Stores(nodes, contents)
      requires index < |chains| && p < |chains[index]| && e == chains[index][p] && e in nodes
      requires if p == 0 then prev == null else prev == chains[index][p - 1]
      modifies this`chains, this`nodes, this`contents, table, nodes`next
      ensures Placed(chains, nodes) && Linked(table, chains, nodes) && Keyed(nodes, hash) && Stores(nodes, contents)
      ensures Dropped(old(chains), chains, index, p)
      ensures nodes == old(nodes) - {e} && e.key in old(contents) && old(contents)[e.key] == e.val
      ensures contents == old(contents) - {e.key} && |contents| + 1 == |old(contents)|
      ensures e.next == old(e.next) && forall f :: f in nodes && f != prev ==> f.next == old(f.next)
    {
      hide *;
      StoresDrop(nodes, contents, hash, e);
      chains := UnlinkEntry(table, index, prev, e, p, chains, nodes);
      nodes := nodes - {e};
      contents := contents - {e.key};
    }

    /** Put a new entry into its bucket. */
    method PutIn(k: K, hv: nat, v: V)
      requires Placed(chains, nodes) && Linked(table, chains, nodes) && Keyed(nodes, hash) && Stores(nodes, contents)
      requires hv == hash(k) && forall f :: f in nodes ==> f.key != k
      modifies this`chains, this`nodes, this`contents, table
      ensures Placed(chains, nodes) && Linked(table, chains, nodes) && Keyed(nodes, hash) && Stores(nodes, contents)
      ensures fresh(nodes - old(nodes)) && contents == old(contents)[k := v] && |contents| == |old(contents)| + 1
    {
      hide *;
      var entry: Entry<K, V> := new Entry(k, hv, v);
      chains := PushEntry(table, entry, chains, nodes);
      StoresPut(nodes, contents, hash, entry);
      nodes := nodes + {entry};
      contents := contents[k := v];
    }

    /** Replace the value of entry `e`. */
    method Replace(e: Entry<K, V>, v: V)
      requires Keyed(nodes, hash) && Stores(nodes, contents) && e in nodes
      modifies this`contents, e`val
      ensures Stores(nodes, contents) && e.key in old(contents)
      ensures contents == old(contents)[e.key := v] && |contents| == |old(contents)|
    {
      hide *;
      StoresDrop(nodes, contents, hash, e);
      e.val := v;
      StoresPut(nodes - {e}, contents - {e.key}, hash, e);
      PutBack(nodes, e, contents, e.key, v);
      contents := contents[e.key := v];
    }

    /** Count one entry more and see whether the table is large enough. */
    method CountOne()
      requires Valid()
      modifies this`entryCount, this`table, this`primeIndex, this`loadLimit, this`chains, table, nodes`next
      ensures Placed(chains, nodes) && Linked(table, chains, nodes) && Keyed(nodes, hash) &&
          Stores(nodes, contents) && Sized()
      ensures Roomy() && entryCount == |contents| + 1 == old(entryCount) + 1 && (table == old(table) || fresh(table))
    {
      hide *;
      Parts();
      entryCount := entryCount + 1;
      RoomyMeans();
      if entryCount > loadLimit {
        Expand();
      }
      RoomyMeans();
    }

    /** `hashtable_insert`. The count goes up first and the table may grow even if the
        key turns out to be there already. */
    method Insert(k: K, v: V)
      requires Valid()
      modifies this, table, nodes
      ensures Valid() && contents == old(contents)[k := v]
      ensures entryCount == old(entryCount) + if k in old(contents) then 0 else 1
      ensures fresh(nodes - old(nodes)) && (table == old(table) || fresh(table))
    {
      hide *;
      CountOne();
      LinkedSize(table, chains, nodes);
      var hv := hash(k);
      var _, e, _ := Walk(IndexFor(table.Length, hv), hv, k);
      RoomyMeans();
      if e != null {
        Replace(e, v);
        entryCount := entryCount - 1;
        RoomyMeans();
      } else {
        NoSuchKey(nodes, contents, k);
        PutIn(k, hv, v);
      }
      FromParts();
    }

    /** `e` is the entry at position `p` of bucket `i`, `prev` the one before it. */
    ghost predicate Cursor(i: nat, p: nat, prev: Entry?<K, V>, e: Entry?<K, V>)
      reads this`chains
    {
      && i < |chains| && p <= |chains[i]| && e == At(chains[i], p)
      && if p == 0 then prev == null else prev == chains[i][p - 1]
    }

    lemma CursorMeans(i: nat, p: nat, prev: Entry?<K, V>, e: Entry?<K, V>)
      ensures Cursor(i, p, prev, e) <==>
              i < |chains| && p <= |chains[i]| && e == At(chains[i], p) &&
                  if p == 0 then prev == null else prev == chains[i][p - 1]
    {
    }

    /** Take entry `e` out of the table. */
    method DropEntry(i: nat, prev: Entry?<K, V>, e: Entry<K, V>, ghost p: nat)
      requires Valid() && Cursor(i, p, prev, e)
      modifies this`chains, this`nodes, this`contents, this`entryCount, table, nodes`next
      ensures Valid() && Dropped(old(chains), chains, i, p) && nodes <= old(nodes)
      ensures e.key in old(contents) && old(contents)[e.key] == e.val && contents == old(contents) - {e.key}
    {
      hide *;
      Parts();
      CursorMeans(i, p, prev, e);
      AtFound(chains[i], p);
      PlacedAt(chains, nodes, i, p);
      TakeOut(i, prev, e, p);
      RoomyMeans();
      entryCount := entryCount - 1;
      RoomyMeans();
      FromParts();
    }

    /** `hashtable_remove`. */
    method Remove(k: K) returns (r: Option<V>)
      requires Valid()
      modifies this, table, nodes
      ensures Valid() && contents == old(contents) - {k}
      ensures r == if k in old(contents) then Some(old(contents)[k]) else None
      ensures nodes <= old(nodes) && table == old(table)
    {
      hide *;
      Parts();
      var hv := hash(k);
      var index := IndexFor(table.Length, hv);
      var prev, e, p := Walk(index, hv, k);
      if e == null {
        NoSuchKey(nodes, contents, k);
        return None;
      }
      r := Some(e.val);
      CursorMeans(index, p, prev, e);
      DropEntry(index, prev, e, p);
    }

    /** Between two calls: `e` comes next, and the keys in `done` have been visited. */
    ghost predicate Visiting(i: nat, p: nat, prev: Entry?<K, V>, e: Entry?<K, V>,
        gone: (K, V) -> bool, m: map<K, V>, done: set<K>)
      reads this, table, nodes
    {
      && Valid() && Cursor(i, p, prev, e)
      && contents == Filtered(m, done, gone) && Visited(chains, i, p, done)
    }

    /** What `m` and `done` are after the function was called for entry `e`. */
    lemma VisitFacts(i: nat, p: nat, prev: Entry?<K, V>, e: Entry<K, V>, gone: (K, V) -> bool, m: map<K, V>,
        done: set<K>)
      requires Visiting(i, p, prev, e, gone, m, done)
      ensures Valid() && Cursor(i, p, prev, e) && contents == Filtered(m, done, gone)
      ensures i < |chains| && p < |chains[i]| && chains[i][p] == e && e.next == At(chains[i], p + 1)
      ensures Visited(chains, i, p + 1, done + {e.key})
      ensures e.key in m && e.key !in done && m[e.key] == e.val
      ensures Filtered(m, done + {e.key}, gone) == if gone(e.key, e.val) then contents - {e.key} else contents
    {
      assert Valid() && Cursor(i, p, prev, e) && contents == Filtered(m, done, gone) && Visited(chains, i, p, done);
      hide *;
      Parts();
      CursorMeans(i, p, prev, e);
      AtFound(chains[i], p);
      ChainNext(table, chains, nodes, i, p);
      VisitOne(chains, nodes, hash, i, p, done);
      EntryStored(nodes, contents, e);
      FilterOne(m, done, gone, e.key);
    }

    lemma IsVisiting(i: nat, p: nat, prev: Entry?<K, V>, e: Entry?<K, V>, gone: (K, V) -> bool, m: map<K, V>,
        done: set<K>)
      ensures Visiting(i, p, prev, e, gone, m, done) <==>
        Valid() && Cursor(i, p, prev, e) && contents == Filtered(m, done, gone) && Visited(chains, i, p, done)
    {
    }

    /** Call the function for entry `e` and take it out if it says so. */
    method VisitEntry(i: nat, ghost p0: nat, prev0: Entry?<K, V>, e: Entry<K, V>, gone: (K, V) -> bool,
        ghost m: map<K, V>, ghost done: set<K>)
      returns (ghost p: nat, prev: Entry?<K, V>, next: Entry?<K, V>)
      requires Visiting(i, p0, prev0, e, gone, m, done) && i < |chains|
      modifies this`chains, this`nodes, this`contents, this`entryCount, table, nodes`next
      ensures Visiting(i, p, prev, next, gone, m, done + {e.key})
      ensures |chains| == |old(chains)| && nodes <= old(nodes)
      ensures e.key in m && e.key !in done && |chains[i]| - p < |old(chains)[i]| - p0
    {
      hide *;
      VisitFacts(i, p0, prev0, e, gone, m, done);
      CursorMeans(i, p0, prev0, e);
      next := e.next;
      if gone(e.key, e.val) {
        ghost var c := chains;
        DropEntry(i, prev0, e, p0);
        VisitDropped(c, chains, i, p0, done + {e.key});
        DroppedMeans(c, chains, i, p0);
        AtDropped(c[i], p0);
        p, prev := p0, prev0;
      } else {
        p, prev := p0 + 1, e;
      }
      CursorMeans(i, p, prev, next);
      IsVisiting(i, p, prev, next, gone, m, done + {e.key});
    }

    /** One bucket of `as_hashtable_foreach`. */
    method VisitBucket(i: nat, gone: (K, V) -> bool, ghost m: map<K, V>, ghost done0: set<K>)
      returns (visited: seq<K>, ghost done: set<K>)
      requires Valid() && i < |chains| && contents == Filtered(m, done0, gone) && Visited(chains, i, 0, done0)
      modifies this`chains, this`nodes, this`contents, this`entryCount, table, nodes`next
      ensures Valid() && |chains| == |old(chains)| && nodes <= old(nodes)
      ensures contents == Filtered(m, done, gone) && Visited(chains, i + 1, 0, done)
      ensures done0 <= done && multiset(visited) == multiset(done - done0) && done <= done0 + m.Keys
    {
      hide *;
      Parts();
      visited, done := [], done0;
      var prev: Entry?<K, V> := null;
      ghost var p: nat := 0;
      ChainHead(table, chains, nodes, i);
      var e := table[i];
      CursorMeans(i, p, prev, e);
      IsVisiting(i, p, prev, e, gone, m, done);
      while e != null
        invariant Visiting(i, p, prev, e, gone, m, done)
        invariant nodes <= old(nodes) && |chains| == |old(chains)|
        invariant done0 <= done && multiset(visited) == multiset(done - done0) && done <= done0 + m.Keys
        decreases |chains[i]| - p
      {
        var k := e.key;
        VisitFacts(i, p, prev, e, gone, m, done);
        p, prev, e := VisitEntry(i, p, prev, e, gone, m, done);
        visited := visited + [k];
        OneMore(visited, done, done0, k);
        done := done + {k};
      }
      IsVisiting(i, p, prev, e, gone, m, done);
      CursorMeans(i, p, prev, e);
      VisitedBucket(chains, i, p, done);
    }

    /** `as_hashtable_foreach`: the function is called once for every entry, and those
        for which it says so are gone afterwards. */
    method Foreach(gone: (K, V) -> bool) returns (visited: seq<K>)
      requires Valid()
      modifies this`chains, this`nodes, this`contents, this`entryCount, table, nodes`next
      ensures Valid()
      ensures multiset(visited) == multiset(old(contents).Keys)
      ensures contents == map k | k in old(contents) && !gone(k, old(contents)[k]) :: old(contents)[k]
    {
      hide *;
      Parts();
      ghost var m := contents;
      ghost var done: set<K> := {};
      visited := [];
      if entryCount == 0 {
        NothingLeft(m, gone);
        return;
      }
      FilteredNone(m, gone);
      VisitedNone(chains);
      ghost var n := |chains|;
      for i := 0 to table.Length
        invariant Valid() && |chains| == n && nodes <= old(nodes)
        invariant contents == Filtered(m, done, gone) && Visited(chains, i, 0, done)
        invariant multiset(visited) == multiset(done) && done <= m.Keys
      {
        Parts();
        ghost var before := done;
        var more;
        more, done := VisitBucket(i, gone, m, done);
        TwoParts(visited, more, before, done);
        visited := visited + more;
      }
      Parts();
      AllVisited(chains, nodes, contents, m, done, gone);
    }
  }

  /** What is left of `m` when the function has been called for the keys in `done`. */
  ghost function Filtered<K, V>(m: map<K, V>, done: set<K>, gone: (K, V) -> bool): map<K, V> {
    map k | k in m && !(k in done && gone(k, m[k])) :: m[k]
  }

  /** Buckets before `i` and the first `p` entries of bucket `i` have been visited. */
  ghost predicate Visited<K, V>(c: seq<seq<Entry<K, V>>>, i: nat, p: nat, done: set<K>) {
    forall j: nat, q: nat :: j < |c| && q < |c[j]| ==> (c[j][q].key in done <==> j < i || (j == i && q < p))
  }

  lemma ChainHead<K, V>(table: array<Entry?<K, V>>, c: seq<seq<Entry<K, V>>>, nodes: set<Entry<K, V>>, i: nat)
    requires Placed(c, nodes) && Linked(table, c, nodes) && i < |c|
    ensures table.Length == |c| && table[i] == At(c[i], 0)
  {
    assert Chain(table[i], c[i]);
  }

  lemma ChainNext<K, V>(table: array<Entry?<K, V>>, c: seq<seq<Entry<K, V>>>, nodes: set<Entry<K, V>>, i: nat, p: nat)
    requires Placed(c, nodes) && Linked(table, c, nodes) && i < |c| && p < |c[i]|
    ensures c[i][p] in nodes && c[i][p].next == At(c[i], p + 1)
  {
    PlacedIn(c, nodes, i);
    assert Chain(table[i], c[i]);
  }

  lemma PlacedAt<K, V>(c: seq<seq<Entry<K, V>>>, nodes: set<Entry<K, V>>, i: nat, p: nat)
    requires Placed(c, nodes) && i < |c| && p < |c[i]|
    ensures c[i][p] in nodes
  {
  }

  lemma AtDropped<K, V>(s: seq<Entry<K, V>>, p: nat)
    requires p < |s|
    ensures |Drop(s, p)| == |s| - 1 && At(s, p + 1) == At(Drop(s, p), p) && (p > 0 ==> Drop(s, p)[p - 1] == s[p - 1])
  {
  }

  lemma EntryStored<K, V>(nodes: set<Entry<K, V>>, m: map<K, V>, e: Entry<K, V>)
    requires Stores(nodes, m) && e in nodes
    ensures e.key in m && m[e.key] == e.val
  {
  }

  lemma FilterOne<K, V>(m: map<K, V>, done: set<K>, gone: (K, V) -> bool, k: K)
    requires k in Filtered(m, done, gone)
    ensures k in m && Filtered(m, done, gone)[k] == m[k]
    ensures Filtered(m, done + {k}, gone) ==
        if gone(k, m[k]) then Filtered(m, done, gone) - {k} else Filtered(m, done, gone)
  {
  }

  lemma VisitOne<K, V>(c: seq<seq<Entry<K, V>>>, nodes: set<Entry<K, V>>, hash: K -> nat, i: nat, p: nat, done: set<K>)
    requires Placed(c, nodes) && Keyed(nodes, hash) && Visited(c, i, p, done) && i < |c| && p < |c[i]|
    ensures c[i][p].key !in done && Visited(c, i, p + 1, done + {c[i][p].key})
  {
    var e := c[i][p];
    forall j: nat, q: nat | j < |c| && q < |c[j]| && (j != i || q != p)
      ensures c[j][q].key != e.key
    {
      assert c[j][q] in nodes && e in nodes;
      assert c[j][q] != e;
    }
  }

  lemma VisitDropped<K, V>(c: seq<seq<Entry<K, V>>>, d: seq<seq<Entry<K, V>>>, i: nat, p: nat, done: set<K>)
    requires Dropped(c, d, i, p) && Visited(c, i, p + 1, done)
    ensures Visited(d, i, p, done) && |d| == |c|
  {
    forall j: nat, q: nat | j < |d| && q < |d[j]|
      ensures d[j][q].key in done <==> j < i || (j == i && q < p)
    {
      if j == i {
        assert d[j][q] == c[j][if q < p then q else q + 1];
      } else {
        assert d[j][q] == c[j][q];
      }
    }
  }

  lemma VisitedBucket<K, V>(c: seq<seq<Entry<K, V>>>, i: nat, p: nat, done: set<K>)
    requires Visited(c, i, p, done) && i < |c| && p <= |c[i]| && At(c[i], p) == null
    ensures Visited(c, i + 1, 0, done)
  {
  }

  lemma NothingLeft<K, V>(m: map<K, V>, gone: (K, V) -> bool)
    requires |m| == 0
    ensures m.Keys == {} && m == map k | k in m && !gone(k, m[k]) :: m[k]
  {
    assert |m.Keys| == 0;
  }

  lemma FilteredNone<K, V>(m: map<K, V>, gone: (K, V) -> bool)
    ensures Filtered(m, {}, gone) == m
  {
  }

  lemma VisitedNone<K, V>(c: seq<seq<Entry<K, V>>>)
    ensures Visited(c, 0, 0, {})
  {
  }

  lemma TwoParts<K>(a: seq<K>, b: seq<K>, before: set<K>, done: set<K>)
    requires multiset(a) == multiset(before) && multiset(b) == multiset(done - before) && before <= done
    ensures multiset(a + b) == multiset(done)
  {
    assert done == before + (done - before);
  }

  lemma AllVisited<K, V>(c: seq<seq<Entry<K, V>>>, nodes: set<Entry<K, V>>, contents: map<K, V>, m: map<K, V>,
      done: set<K>, gone: (K, V) -> bool)
    requires Placed(c, nodes) && Stores(nodes, contents) && Visited(c, |c|, 0, done)
    requires contents == Filtered(m, done, gone) && done <= m.Keys
    ensures done == m.Keys && contents == map k | k in m && !gone(k, m[k]) :: m[k]
  {
    forall k | k in contents
      ensures k in done
    {
      var e :| e in nodes && e.key == k;
      var j := IndexFor(|c|, e.h);
      var q :| 0 <= q < |c[j]| && c[j][q] == e;
    }
    forall k | k in m
      ensures k in done
    {
      assert k in done || k in contents;
    }
  }

  lemma OneMore<K>(visited: seq<K>, done: set<K>, done0: set<K>, k: K)
    requires visited != [] && visited[|visited| - 1] == k && k !in done && done0 <= done
    requires multiset(visited[..|visited| - 1]) == multiset(done - done0)
    ensures multiset(visited) == multiset(done + {k} - done0)
  {
    assert visited == visited[..|visited| - 1] + [k];
    assert done + {k} - done0 == done - done0 + {k};
  }

  /** Move bucket `i` over, always the first entry of what is left. */
  method MoveBucket<K, V>(table: array<Entry?<K, V>>, i: nat, t: array<Entry?<K, V>>,
      ghost a0: seq<seq<Entry<K, V>>>, ghost na0: set<Entry<K, V>>, ghost b0: seq<seq<Entry<K, V>>>,
          ghost nb0: set<Entry<K, V>>)
    returns (ghost a: seq<seq<Entry<K, V>>>, ghost na: set<Entry<K, V>>, ghost b: seq<seq<Entry<K, V>>>,
        ghost nb: set<Entry<K, V>>)
    requires t != table && i < |a0| && na0 !! nb0
    requires Placed(a0, na0) && Linked(table, a0, na0) && Placed(b0, nb0) && Linked(t, b0, nb0)
    modifies table, t, na0`next
    ensures na + nb == na0 + nb0 && na !! nb && |b| == |b0|
    ensures Placed(a, na) && Linked(table, a, na) && Placed(b, nb) && Linked(t, b, nb)
    ensures a == a0[i := []]
  {
    hide *;
    a, na, b, nb := a0, na0, b0, nb0;
    LinkedHead(table, a, na, i);
    var e := table[i];
    while e != null
      invariant |b| == |b0| && na + nb == na0 + nb0 && na !! nb && na <= na0
      invariant Placed(a, na) && Linked(table, a, na) && Placed(b, nb) && Linked(t, b, nb)
      invariant |a| == |a0| && a == a0[i := a[i]] && table.Length == |a|
      invariant if e == null then a[i] == [] else a[i] != [] && a[i][0] == e && e in na
      decreases |a[i]|
    {
      DropFirst(a[i]);
      ghost var d := UnlinkEntry(table, i, null, e, 0, a, na);
      DroppedMeans(a, d, i, 0);
      a, na := d, na - {e};
      b := PushEntry(t, e, b, nb);
      nb := nb + {e};
      LinkedHead(table, a, na, i);
      e := table[i];
    }
  }

  lemma DropFirst<A>(s: seq<A>)
    requires s != []
    ensures |Drop(s, 0)| == |s| - 1
  {
  }

  lemma AtFound<K, V>(s: seq<Entry<K, V>>, p: nat)
    ensures At(s, p) != null ==> p < |s| && s[p] == At(s, p)
  {
  }

  lemma LinkedSize<K, V>(table: array<Entry?<K, V>>, c: seq<seq<Entry<K, V>>>, nodes: set<Entry<K, V>>)
    requires Placed(c, nodes) && Linked(table, c, nodes)
    ensures table.Length == |c| > 0
  {
  }

  lemma LinkedHead<K, V>(table: array<Entry?<K, V>>, c: seq<seq<Entry<K, V>>>, nodes: set<Entry<K, V>>, i: nat)
    requires Placed(c, nodes) && Linked(table, c, nodes) && i < |c|
    ensures table.Length == |c|
    ensures if table[i] == null then c[i] == [] else c[i] != [] && c[i][0] == table[i] && table[i] in nodes
  {
    PlacedIn(c, nodes, i);
    assert Chain(table[i], c[i]);
  }

  lemma NothingPlaced<K, V>(t: array<Entry?<K, V>>, c: seq<seq<Entry<K, V>>>)
    requires t.Length == |c| > 0 && forall i: nat :: i < |c| ==> c[i] == [] && t[i] == null
    ensures Placed(c, {}) && Linked(t, c, {})
  {
  }

  lemma NoSuchKey<K, V>(nodes: set<Entry<K, V>>, m: map<K, V>, k: K)
    requires Stores(nodes, m) && forall f :: f in nodes ==> f.key != k
    ensures k !in m && m - {k} == m
  {
  }

  lemma PutBack<K, V>(nodes: set<Entry<K, V>>, e: Entry<K, V>, m: map<K, V>, k: K, v: V)
    requires e in nodes
    ensures nodes - {e} + {e} == nodes && (m - {k})[k := v] == m[k := v]
  {
  }

  lemma StoresDrop<K, V>(nodes: set<Entry<K, V>>, m: map<K, V>, hash: K -> nat, e: Entry<K, V>)
    requires Stores(nodes, m) && Keyed(nodes, hash) && e in nodes
    ensures Stores(nodes - {e}, m - {e.key}) && Keyed(nodes - {e}, hash)
    ensures e.key in m && m[e.key] == e.val && |m - {e.key}| == |m| - 1
    ensures e.h == hash(e.key) && forall f :: f in nodes - {e} ==> f.key != e.key
  {
    assert (m - {e.key}).Keys == m.Keys - {e.key};
    assert |m - {e.key}| == |(m - {e.key}).Keys| && |m| == |m.Keys|;
  }

  lemma StoresPut<K, V>(nodes: set<Entry<K, V>>, m: map<K, V>, hash: K -> nat, e: Entry<K, V>)
    requires Stores(nodes, m) && Keyed(nodes, hash) && e.h == hash(e.key)
    requires forall f :: f in nodes ==> f.key != e.key
    ensures Stores(nodes + {e}, m[e.key := e.val]) && Keyed(nodes + {e}, hash)
    ensures e.key !in m && |m[e.key := e.val]| == |m| + 1
  {
    var w := m[e.key := e.val];
    forall k | k in w
      ensures exists f :: f in nodes + {e} && f.key == k
    {
      if k == e.key {
        assert e in nodes + {e};
      } else {
        var f :| f in nodes && f.key == k;
        assert f in nodes + {e};
      }
    }
  }

  lemma AllMoved<K, V>(c: seq<seq<Entry<K, V>>>, nodes: set<Entry<K, V>>)
    requires Placed(c, nodes) && forall j: nat :: j < |c| ==> c[j] == []
    ensures nodes == {}
  {
  }
}
