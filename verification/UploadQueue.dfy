/** The upload manager and its queue (gift-ares/lib/as_upload_man.c). Hosts that
    cannot be served yet wait in a queue and have to come back regularly to keep
    their place. */
module UploadQueue {
  type Host = nat

  /** AS_UPLOAD_QUEUE_TIMEOUT */
  const Timeout: int := 180

  datatype Entry = Entry(host: Host, time: int)

  /** `Sending` is UPLOAD_ACTIVE. */
  datatype UploadState = New | Sending | Complete | Cancelled

  datatype Upload = Upload(id: nat, host: Host, state: UploadState)

  predicate Stale(e: Entry, now: int) { now - e.time > Timeout }

  // ------------------------------------------------------------ the queue as a value

  /** The queue without its stale entries. */
  function Tidy(q: seq<Entry>, now: int): seq<Entry> {
    if q == [] then [] else (if Stale(q[0], now) then [] else [q[0]]) + Tidy(q[1..], now)
  }

  /** Place of a host in the queue, from one on; one past the end if it is not in it. */
  function Place(q: seq<Entry>, h: Host): (p: nat)
    ensures 1 <= p <= |q| + 1
    ensures p <= |q| ==> q[p - 1].host == h
    ensures forall j :: 0 <= j < p - 1 ==> q[j].host != h
  {
    if q == [] || q[0].host == h then 1 else 1 + Place(q[1..], h)
  }

  predicate Waits(q: seq<Entry>, h: Host) { Place(q, h) <= |q| }

  ghost predicate Distinct(q: seq<Entry>) {
    forall i, j :: 0 <= i < j < |q| ==> q[i].host != q[j].host
  }

  lemma {:induction false} WaitsIff(q: seq<Entry>, h: Host)
    ensures Waits(q, h) <==> exists j :: 0 <= j < |q| && q[j].host == h
  {
    if Waits(q, h) {
      assert q[Place(q, h) - 1].host == h;
    }
  }

  lemma PlaceAt(q: seq<Entry>, i: nat)
    requires Distinct(q) && i < |q|
    ensures Place(q, q[i].host) == i + 1
  {
    var p := Place(q, q[i].host);
    assert p - 1 <= i;
  }

  /** The same hosts in the same order, perhaps fewer; nobody's place has grown. */
  ghost predicate NoneFallsBack(a: seq<Entry>, b: seq<Entry>) {
    && (forall h :: Waits(b, h) ==> Waits(a, h) && Place(b, h) <= Place(a, h))
    && (forall g, h :: Waits(b, g) && Waits(b, h) && Place(a, g) < Place(a, h) ==> Place(b, g) < Place(b, h))
  }

  lemma PlaceCons(e: Entry, s: seq<Entry>, h: Host)
    ensures Place([e] + s, h) == (if e.host == h then 1 else 1 + Place(s, h))
    ensures Waits([e] + s, h) <==> e.host == h || Waits(s, h)
  {
    assert ([e] + s)[1..] == s;
  }

  /** The first entry stays, or goes. */
  lemma FirstStaysOrGoes(e: Entry, a: seq<Entry>, b: seq<Entry>)
    requires NoneFallsBack(a, b) && !Waits(a, e.host)
    ensures NoneFallsBack([e] + a, [e] + b) && NoneFallsBack([e] + a, b)
  {
    hide Place, Waits;
    forall h
      ensures Place([e] + a, h) == (if e.host == h then 1 else 1 + Place(a, h)) &&
          (Waits([e] + a, h) <==> e.host == h || Waits(a, h))
      ensures Place([e] + b, h) == (if e.host == h then 1 else 1 + Place(b, h)) &&
          (Waits([e] + b, h) <==> e.host == h || Waits(b, h))
    {
      PlaceCons(e, a, h);
      PlaceCons(e, b, h);
    }
  }

  lemma DistinctCons(e: Entry, s: seq<Entry>)
    ensures Distinct([e] + s) <==> Distinct(s) && !Waits(s, e.host)
  {
    var l := [e] + s;
    WaitsIff(s, e.host);
    assert forall j :: 0 < j < |l| ==> l[j] == s[j - 1];
    if Distinct(l) {
      forall i, j | 0 <= i < j < |s|
        ensures s[i].host != s[j].host
      {
        assert l[i + 1].host != l[j + 1].host;
      }
      forall j | 0 <= j < |s|
        ensures s[j].host != e.host
      {
        assert l[0].host != l[j + 1].host;
      }
    }
  }

  lemma {:induction false} TidyFacts(q: seq<Entry>, now: int)
    requires Distinct(q)
    ensures Distinct(Tidy(q, now)) && |Tidy(q, now)| <= |q|
    ensures NoneFallsBack(q, Tidy(q, now))
    ensures forall e :: e in Tidy(q, now) <==> e in q && !Stale(e, now)
  {
    if q == [] {
    } else {
      var e, rest := q[0], q[1..];
      assert q == [e] + rest;
      DistinctCons(e, rest);
      TidyFacts(rest, now);
      hide NoneFallsBack, Distinct, Waits;
      FirstStaysOrGoes(e, rest, Tidy(rest, now));
      DistinctCons(e, Tidy(rest, now));
      StillAbsent(rest, Tidy(rest, now), e.host);
      assert [] + Tidy(rest, now) == Tidy(rest, now);
    }
  }

  lemma StillAbsent(a: seq<Entry>, b: seq<Entry>, h: Host)
    requires NoneFallsBack(a, b) && !Waits(a, h)
    ensures !Waits(b, h)
  {
  }

  /** The queue when `h` has asked again, or for the first time. */
  function Refreshed(q: seq<Entry>, h: Host, now: int): seq<Entry> {
    if Waits(q, h) then q[Place(q, h) - 1 := Entry(h, now)] else q + [Entry(h, now)]
  }

  /** The queue without `h`. */
  function Popped(q: seq<Entry>, h: Host): seq<Entry> {
    if Waits(q, h) then q[..Place(q, h) - 1] + q[Place(q, h)..] else q
  }

  /** The answer to a request and the queue afterwards: -1 for no, 0 for yes, or the
      place in the queue. */
  function Answer(sending: bool, nuploads: nat, q: seq<Entry>, h: Host, now: int, max: nat): (int, seq<Entry>) {
    if sending then (-1, q)
    else if nuploads + |q| < max then (0, q)
    else
      var t := Tidy(q, now);
      if Place(t, h) + nuploads < max then (0, Popped(t, h)) else (Place(t, h) as int, Refreshed(t, h, now))
  }

  lemma {:induction false} PlaceAppend(q: seq<Entry>, e: Entry, h: Host)
    ensures Place(q + [e], h) == if Waits(q, h) then Place(q, h) else if e.host == h then |q| + 1 else |q| + 2
  {
    if q == [] {
      assert q + [e] == [e] && [e][1..] == [];
    } else {
      assert (q + [e])[1..] == q[1..] + [e];
      PlaceAppend(q[1..], e, h);
    }
  }

  lemma {:induction false} PlaceRetimed(q: seq<Entry>, i: nat, now: int, h: Host)
    requires i < |q|
    ensures Place(q[i := Entry(q[i].host, now)], h) == Place(q, h)
  {
    var r := q[i := Entry(q[i].host, now)];
    if i > 0 {
      assert r[1..] == q[1..][i - 1 := Entry(q[i].host, now)];
      PlaceRetimed(q[1..], i - 1, now, h);
    } else {
      assert r[1..] == q[1..];
    }
  }

  lemma RefreshedPlaces(q: seq<Entry>, h: Host, now: int, g: Host)
    ensures Waits(Refreshed(q, h, now), g) <==> Waits(q, g) || g == h
    ensures Waits(q, g) || g == h ==> Place(Refreshed(q, h, now), g) == Place(q, g)
  {
    if Waits(q, h) {
      PlaceRetimed(q, Place(q, h) - 1, now, g);
    } else {
      PlaceAppend(q, Entry(h, now), g);
    }
  }

  lemma {:induction false} PoppedPlaces(q: seq<Entry>, h: Host, g: Host)
    requires Distinct(q)
    ensures Waits(Popped(q, h), g) <==> Waits(q, g) && g != h
    ensures Waits(q, g) && g != h ==>
        Place(Popped(q, h), g) == Place(q, g) - if Waits(q, h) && Place(q, h) < Place(q, g) then 1 else 0
  {
    hide *;
    if q == [] {
      NoPlaces(h);
      NoPlaces(g);
    } else {
      var e, rest := q[0], q[1..];
      assert q == [e] + rest;
      DistinctCons(e, rest);
      PoppedCons(e, rest, h);
      PlaceCons(e, rest, g);
      PlaceCons(e, rest, h);
      PlaceBounds(rest, g);
      PlaceBounds(rest, h);
      if e.host != h {
        PlaceCons(e, Popped(rest, h), g);
        PoppedPlaces(rest, h, g);
      }
    }
  }

  lemma NoPlaces(h: Host)
    ensures !Waits([], h) && Popped([], h) == []
  {
  }

  lemma PlaceBounds(q: seq<Entry>, h: Host)
    ensures 1 <= Place(q, h) <= |q| + 1
  {
  }

  lemma PoppedCons(e: Entry, rest: seq<Entry>, h: Host)
    ensures Popped([e] + rest, h) == if e.host == h then rest else [e] + Popped(rest, h)
  {
    var q, p := [e] + rest, Place(rest, h);
    PlaceCons(e, rest, h);
    WaitsMeans(rest, h);
    WaitsMeans(q, h);
    PoppedMeans(rest, h);
    PoppedMeans(q, h);
    hide *;
    if e.host == h {
      assert q[..0] + q[1..] == rest;
    } else if Waits(rest, h) {
      assert q[..p] == [e] + rest[..p - 1] && q[p + 1..] == rest[p..];
    }
  }

  lemma PoppedMeans(q: seq<Entry>, h: Host)
    ensures Waits(q, h) ==> 0 < Place(q, h) <= |q| && Popped(q, h) == q[..Place(q, h) - 1] + q[Place(q, h)..]
    ensures !Waits(q, h) ==> Popped(q, h) == q
  {
  }

  lemma WaitsMeans(q: seq<Entry>, h: Host)
    ensures Waits(q, h) <==> Place(q, h) <= |q|
  {
  }

  lemma RefreshedDistinct(q: seq<Entry>, h: Host, now: int)
    requires Distinct(q)
    ensures Distinct(Refreshed(q, h, now))
    ensures |Refreshed(q, h, now)| == |q| + if Waits(q, h) then 0 else 1
  {
    WaitsIff(q, h);
    var r := Refreshed(q, h, now);
    forall i, j | 0 <= i < j < |r|
      ensures r[i].host != r[j].host
    {
      assert Waits(q, h) ==> r[i].host == q[i].host && r[j].host == q[j].host;
    }
  }

  lemma PoppedDistinct(q: seq<Entry>, h: Host)
    requires Distinct(q)
    ensures Distinct(Popped(q, h)) && |Popped(q, h)| == |q| - if Waits(q, h) then 1 else 0
  {
    if Waits(q, h) {
      GapDistinct(q, Place(q, h) - 1);
    }
  }

  lemma GapDistinct(q: seq<Entry>, k: nat)
    requires Distinct(q) && k < |q|
    ensures Distinct(q[..k] + q[k + 1..]) && |q[..k] + q[k + 1..]| == |q| - 1
  {
    var r := q[..k] + q[k + 1..];
    forall i, j | 0 <= i < j < |r|
      ensures r[i].host != r[j].host
    {
      assert r[i] == q[if i < k then i else i + 1] && r[j] == q[if j < k then j else j + 1];
    }
  }

  /** The entry of `h` has not been kept alive. */
  predicate Expired(q: seq<Entry>, h: Host, now: int) {
    Waits(q, h) && Stale(q[Place(q, h) - 1], now)
  }

  /** As `NoneFallsBack`, except that `h` may be new, or have come too late. */
  ghost predicate OthersKeepPlace(a: seq<Entry>, b: seq<Entry>, h: Host) {
    && (forall g :: g != h && Waits(b, g) ==> Waits(a, g) && Place(b, g) <= Place(a, g))
    && (forall g, g' :: g != h && g' != h && Waits(b, g) && Waits(b, g') && Place(a, g) < Place(a, g') ==>
        Place(b, g) < Place(b, g'))
  }

  lemma MemberWaits(q: seq<Entry>, e: Entry)
    requires e in q
    ensures Waits(q, e.host)
  {
    WaitsIff(q, e.host);
  }

  /** Who is still in a queue without stale entries has not expired. */
  lemma NotExpired(q: seq<Entry>, t: seq<Entry>, h: Host, now: int)
    requires Distinct(q) && Waits(t, h) && forall e :: e in t ==> e in q && !Stale(e, now)
    ensures Waits(q, h) && !Expired(q, h, now)
  {
    hide Stale, Distinct;
    var e := t[Place(t, h) - 1];
    assert e in t;
    var j :| 0 <= j < |q| && q[j] == e;
    PlaceAt(q, j);
  }

  /** A host whose entry is not stale stays. */
  lemma StaysIn(q: seq<Entry>, t: seq<Entry>, h: Host, now: int)
    requires Waits(q, h) && !Expired(q, h, now) && forall e :: e in q && !Stale(e, now) ==> e in t
    ensures Waits(t, h)
  {
    hide Stale;
    var e := q[Place(q, h) - 1];
    assert e in q;
    MemberWaits(t, e);
  }

  lemma ExpiredIff(q: seq<Entry>, h: Host, now: int)
    requires Distinct(q)
    ensures Waits(Tidy(q, now), h) <==> Waits(q, h) && !Expired(q, h, now)
  {
    hide *;
    TidyFacts(q, now);
    var t := Tidy(q, now);
    if Waits(t, h) {
      NotExpired(q, t, h, now);
    }
    if Waits(q, h) && !Expired(q, h, now) {
      StaysIn(q, t, h, now);
    }
  }

  /** An entry stays exactly if its host has asked within the last three minutes. */
  lemma StaysIff(q: seq<Entry>, e: Entry, now: int)
    requires Distinct(q) && e in q
    ensures Waits(Tidy(q, now), e.host) <==> now - e.time <= 180
    ensures e in Tidy(q, now) <==> now - e.time <= 180
  {
    TidyFacts(q, now);
    ExpiredIff(q, e.host, now);
    var i :| 0 <= i < |q| && q[i] == e;
    PlaceAt(q, i);
  }

  /** How many who have asked within the last three minutes are before `h`. */
  function Ahead(q: seq<Entry>, h: Host, now: int): nat {
    if q == [] then 0
    else if now - q[0].time > 180 then Ahead(q[1..], h, now)
    else if q[0].host == h then 0
    else 1 + Ahead(q[1..], h, now)
  }

  lemma {:induction false} PlaceIsBehind(q: seq<Entry>, h: Host, now: int)
    ensures Place(Tidy(q, now), h) == 1 + Ahead(q, h, now)
  {
    if q != [] {
      PlaceIsBehind(q[1..], h, now);
      var rest := Tidy(q[1..], now);
      PlaceCons(q[0], rest, h);
      assert [] + rest == rest;
    }
  }

  /** A host is let in exactly if it has no upload yet and there is a slot to spare,
      or would be, with everybody in the queue served, or with everybody served who is
      before it and has kept asking. Otherwise the answer is its place among those. */
  lemma LetInIff(sending: bool, nuploads: nat, q: seq<Entry>, h: Host, now: int, max: nat)
    ensures var pos := Answer(sending, nuploads, q, h, now, max).0;
      && (pos == 0 <==> !sending && (nuploads + |q| < max || nuploads + Ahead(q, h, now) + 1 < max))
      && (pos == -1 <==> sending)
      && (pos > 0 ==> pos == 1 + Ahead(q, h, now))
  {
    PlaceIsBehind(q, h, now);
    hide Place, Tidy, Ahead, Popped, Refreshed;
  }

  /** The queue is first come, first served: nobody's place grows while it keeps
      coming back, the order stays, and the answer is the place in the new queue. */
  lemma AnswerIsFair(sending: bool, nuploads: nat, q: seq<Entry>, h: Host, now: int, max: nat)
    requires Distinct(q)
    ensures var (pos, r) := Answer(sending, nuploads, q, h, now, max);
      && Distinct(r) && OthersKeepPlace(q, r, h)
      && (pos > 0 ==> Waits(r, h) && Place(r, h) == pos)
      && (Waits(q, h) && !Expired(q, h, now) ==> NoneFallsBack(q, r))
  {
    var t := Tidy(q, now);
    TidyFacts(q, now);
    ExpiredIff(q, h, now);
    RefreshedDistinct(t, h, now);
    PoppedDistinct(t, h);
    hide Distinct, Tidy, Refreshed, Popped, Place, Waits, Stale, Expired, NoneFallsBack, OthersKeepPlace;
    PoppedFair(t, h);
    RefreshedFair(t, h, now);
    FairTwice(q, t, Popped(t, h), h);
    FairTwice(q, t, Refreshed(t, h, now), h);
    FairSame(q, h);
  }

  lemma PoppedFair(t: seq<Entry>, h: Host)
    requires Distinct(t)
    ensures OthersKeepPlace(t, Popped(t, h), h) && NoneFallsBack(t, Popped(t, h))
  {
    hide Distinct, Popped, Place, Waits;
    forall g
      ensures Waits(Popped(t, h), g) <==> Waits(t, g) && g != h
      ensures Waits(t, g) && g != h ==>
          Place(Popped(t, h), g) == Place(t, g) - if Waits(t, h) && Place(t, h) < Place(t, g) then 1 else 0
    {
      PoppedPlaces(t, h, g);
    }
    PlacesApart(t);
  }

  lemma RefreshedFair(t: seq<Entry>, h: Host, now: int)
    requires Distinct(t)
    ensures var r := Refreshed(t, h, now);
      OthersKeepPlace(t, r, h) && Waits(r, h) && Place(r, h) == Place(t, h) && (Waits(t, h) ==> NoneFallsBack(t, r))
  {
    hide Distinct, Refreshed, Place, Waits;
    forall g
      ensures Waits(Refreshed(t, h, now), g) <==> Waits(t, g) || g == h
      ensures Waits(t, g) || g == h ==> Place(Refreshed(t, h, now), g) == Place(t, g)
    {
      RefreshedPlaces(t, h, now, g);
    }
  }

  lemma FairTwice(a: seq<Entry>, b: seq<Entry>, c: seq<Entry>, h: Host)
    requires NoneFallsBack(a, b)
    ensures OthersKeepPlace(b, c, h) ==> OthersKeepPlace(a, c, h)
    ensures NoneFallsBack(b, c) ==> NoneFallsBack(a, c)
  {
    hide Place, Waits;
    forall g, g' | Waits(b, g) && Waits(b, g') && Place(a, g) < Place(a, g')
      ensures Place(b, g) < Place(b, g')
    {
    }
  }

  lemma FairSame(q: seq<Entry>, h: Host)
    ensures OthersKeepPlace(q, q, h) && NoneFallsBack(q, q)
  {
  }

  lemma PlacesApart(q: seq<Entry>)
    ensures forall g, h :: Waits(q, g) && Waits(q, h) && g != h ==> Place(q, g) != Place(q, h)
  {
  }

  /** Nobody is let in past somebody who could not come in as well. */
  lemma NoOvertaking(sending: bool, nuploads: nat, q: seq<Entry>, h: Host, now: int, max: nat)
    requires Distinct(q) && Answer(sending, nuploads, q, h, now, max).0 == 0
    ensures nuploads < max && !sending
    ensures var t := Tidy(q, now);
      forall g :: Waits(t, g) && Place(t, g) < Place(t, h) ==> Place(t, g) + nuploads < max
  {
    TidyFacts(q, now);
  }

  // --------------------------------------------------------------------- the uploads

  function Count(ups: seq<Upload>): nat {
    if ups == [] then 0 else (if ups[0].state == Sending then 1 else 0) + Count(ups[1..])
  }

  predicate SendingTo(ups: seq<Upload>, h: Host) {
    exists i :: 0 <= i < |ups| && ups[i].state == Sending && ups[i].host == h
  }

  /** At most one active upload per host. */
  ghost predicate OneEach(ups: seq<Upload>) {
    forall i, j :: 0 <= i < j < |ups| && ups[i].state == Sending && ups[j].state == Sending ==>
        ups[i].host != ups[j].host
  }

  lemma {:induction false} CountUpdate(ups: seq<Upload>, i: nat, st: UploadState)
    requires i < |ups|
    ensures Count(ups[i := ups[i].(state := st)]) + (if ups[i].state == Sending then 1 else 0) == Count(ups) +
        if st == Sending then 1 else 0
  {
    var r := ups[i := ups[i].(state := st)];
    if i > 0 {
      assert r[1..] == ups[1..][i - 1 := ups[i].(state := st)];
      CountUpdate(ups[1..], i - 1, st);
    } else {
      assert r[1..] == ups[1..];
    }
  }

  lemma {:induction false} CountWithout(ups: seq<Upload>, i: nat)
    requires i < |ups|
    ensures Count(ups[..i] + ups[i + 1..]) + (if ups[i].state == Sending then 1 else 0) == Count(ups)
  {
    if i > 0 {
      assert (ups[..i] + ups[i + 1..])[1..] == ups[1..][..i - 1] + ups[1..][i..];
      CountWithout(ups[1..], i - 1);
    } else {
      assert ups[..0] + ups[1..] == ups[1..];
    }
  }

  /** An upload that is not active yet changes nothing. Made active, it is one more. */
  lemma CountCons(u: Upload, ups: seq<Upload>)
    ensures Count([u] + ups) == Count(ups) + if u.state == Sending then 1 else 0
  {
    assert ([u] + ups)[1..] == ups;
  }

  lemma OneEachCons(u: Upload, ups: seq<Upload>)
    requires OneEach(ups) && (u.state == Sending ==> !SendingTo(ups, u.host))
    ensures OneEach([u] + ups)
  {
    var l := [u] + ups;
    forall i, j | 0 <= i < j < |l| && l[i].state == Sending && l[j].state == Sending
      ensures l[i].host != l[j].host
    {
      assert l[j] == ups[j - 1];
      if i > 0 {
        assert l[i] == ups[i - 1];
      }
    }
  }

  lemma SendingCons(u: Upload, ups: seq<Upload>, h: Host)
    requires u.state != Sending
    ensures SendingTo([u] + ups, h) <==> SendingTo(ups, h)
  {
    var l := [u] + ups;
    if SendingTo(ups, h) {
      var i :| 0 <= i < |ups| && ups[i].state == Sending && ups[i].host == h;
      assert l[i + 1] == ups[i];
    }
    if SendingTo(l, h) {
      var i :| 0 <= i < |l| && l[i].state == Sending && l[i].host == h;
      assert l[i] == ups[i - 1];
    }
  }

  lemma NewUpload(ups: seq<Upload>, id: nat, h: Host)
    requires OneEach(ups)
    ensures var l := [Upload(id, h, New)] + ups;
      && l[1..] == ups && l[0 := l[0].(state := Sending)] == [Upload(id, h, Sending)] + ups
      && Count(l) == Count(ups) && OneEach(l) && (SendingTo(l, h) <==> SendingTo(ups, h))
      && Count(l[0 := l[0].(state := Sending)]) == Count(ups) + 1
      && (!SendingTo(ups, h) ==> OneEach(l[0 := l[0].(state := Sending)]))
  {
    hide *;
    var u, v := Upload(id, h, New), Upload(id, h, Sending);
    var l := [u] + ups;
    assert l[1..] == ups && l[0 := l[0].(state := Sending)] == [v] + ups;
    CountCons(u, ups);
    CountCons(v, ups);
    OneEachCons(u, ups);
    SendingCons(u, ups, h);
    if !SendingTo(ups, h) {
      OneEachCons(v, ups);
    }
  }

  lemma AnswerBounds(sending: bool, nuploads: nat, q: seq<Entry>, h: Host, now: int, max: nat)
    ensures Answer(sending, nuploads, q, h, now, max).0 == 0 ==> nuploads < max && !sending
  {
  }

  lemma EndsKeeps(ups: seq<Upload>, i: nat, st: UploadState)
    requires OneEach(ups) && i < |ups| && st != Sending
    ensures OneEach(ups[i := ups[i].(state := st)])
  {
  }

  lemma WithoutKeeps(ups: seq<Upload>, i: nat)
    requires OneEach(ups) && i < |ups|
    ensures OneEach(ups[..i] + ups[i + 1..])
  {
    var r := ups[..i] + ups[i + 1..];
    forall j, k | 0 <= j < k < |r| && r[j].state == Sending && r[k].state == Sending
      ensures r[j].host != r[k].host
    {
      assert r[j] == ups[if j < i then j else j + 1] && r[k] == ups[if k < i then k else k + 1];
    }
  }

  datatype Event = Request(id: nat, h: Host, now: int, goes: bool) | End(k: nat, st: UploadState) | Forget(k: nat)

  datatype State = State(uploads: seq<Upload>, queue: seq<Entry>)

  /** What one event does. */
  function Step(s: State, e: Event, max: nat): State {
    match e
    case Request(id, h, now, goes) =>
      var (pos, q) := Answer(SendingTo(s.uploads, h), Count(s.uploads), s.queue, h, now, max);
      State(if pos == 0 && goes then [Upload(id, h, Sending)] + s.uploads else s.uploads, q)
    case End(k, st) =>
      if k < |s.uploads| && s.uploads[k].state == Sending && st in {Complete, Cancelled}
      then s.(uploads := s.uploads[k := s.uploads[k].(state := st)]) else s
    case Forget(k) =>
      if k < |s.uploads| then s.(uploads := s.uploads[..k] + s.uploads[k + 1..]) else s
  }

  function After(s: State, events: seq<Event>, max: nat): State {
    if events == [] then s else Step(After(s, events[..|events| - 1], max), events[|events| - 1], max)
  }

  lemma AfterNothing(s: State, max: nat)
    ensures After(s, [], max) == s
  {
  }

  lemma AfterNext(s: State, events: seq<Event>, i: nat, max: nat)
    requires i < |events|
    ensures After(s, events[..i + 1], max) == Step(After(s, events[..i], max), events[i], max)
  {
    assert events[..i + 1][..i] == events[..i];
  }

  lemma StepMeans(s: State, e: Event, max: nat)
    ensures match e
      case Request(id, h, now, goes) =>
        var (pos, q) := Answer(SendingTo(s.uploads, h), Count(s.uploads), s.queue, h, now, max);
        Step(s, e, max) == State(if pos == 0 && goes then [Upload(id, h, Sending)] + s.uploads else s.uploads, q)
      case End(k, st) =>
        Step(s, e, max) == if k < |s.uploads| && s.uploads[k].state == Sending && st in {Complete, Cancelled}
                           then s.(uploads := s.uploads[k := s.uploads[k].(state := st)]) else s
      case Forget(k) =>
        Step(s, e, max) == if k < |s.uploads| then s.(uploads := s.uploads[..k] + s.uploads[k + 1..]) else s
  {
  }

  /** When `g` last asked, if it first did at `t0`. */
  function LastAsked(events: seq<Event>, g: Host, t0: int): int {
    if events == [] then t0
    else
      var e := events[|events| - 1];
      if e.Request? && e.h == g then e.now else LastAsked(events[..|events| - 1], g, t0)
  }

  /** Whoever asks, `g` included: it is no more than three minutes after `g` last did. */
  ghost predicate KeepsAsking(events: seq<Event>, g: Host, t0: int) {
    forall i: nat :: i < |events| && events[i].Request? ==> events[i].now - LastAsked(events[..i], g, t0) <= 180
  }

  /** The answer to request `e`. */
  function AnswerTo(s: State, e: Event, max: nat): int
    requires e.Request?
  {
    Answer(SendingTo(s.uploads, e.h), Count(s.uploads), s.queue, e.h, e.now, max).0
  }

  ghost predicate LetIn(s: State, events: seq<Event>, max: nat, g: Host) {
    exists i: nat :: i < |events| && events[i].Request? && events[i].h == g &&
        AnswerTo(After(s, events[..i], max), events[i], max) == 0
  }

  /** The entry of `g` is of time `t`, and `g` has no active upload. */
  ghost predicate Queued(s: State, g: Host, t: int) {
    Distinct(s.queue) && Entry(g, t) in s.queue && !SendingTo(s.uploads, g)
  }

  lemma TidyKeeps(q: seq<Entry>, g: Host, t: int, now: int)
    requires Distinct(q) && Entry(g, t) in q && now - t <= 180
    ensures Entry(g, t) in Tidy(q, now) && Distinct(Tidy(q, now)) && NoneFallsBack(q, Tidy(q, now))
    ensures Waits(q, g) && Waits(Tidy(q, now), g) && Place(Tidy(q, now), g) <= Place(q, g)
  {
    TidyFacts(q, now);
    StaysIff(q, Entry(g, t), now);
    MemberWaits(q, Entry(g, t));
  }

  lemma PoppedKeeps(q: seq<Entry>, h: Host, e: Entry)
    requires e in q && e.host != h
    ensures e in Popped(q, h)
  {
    var i :| 0 <= i < |q| && q[i] == e;
    if Waits(q, h) {
      var k := Place(q, h) - 1;
      assert Popped(q, h)[if i < k then i else i - 1] == e;
    }
  }

  lemma RefreshedKeeps(q: seq<Entry>, h: Host, now: int, e: Entry)
    requires e in q && e.host != h
    ensures e in Refreshed(q, h, now)
  {
    var i :| 0 <= i < |q| && q[i] == e;
    assert Refreshed(q, h, now)[i] == e;
  }

  lemma RefreshedHas(q: seq<Entry>, h: Host, now: int)
    ensures Entry(h, now) in Refreshed(q, h, now)
  {
    assert Refreshed(q, h, now)[Place(q, h) - 1] == Entry(h, now);
  }

  /** One request that does not let `g` in. */
  lemma AnswerKeeps(sending: bool, nuploads: nat, q: seq<Entry>, h: Host, now: int, max: nat, g: Host, t: int)
    requires Distinct(q) && Entry(g, t) in q && now - t <= 180
    requires h == g ==> !sending && Answer(sending, nuploads, q, h, now, max).0 != 0
    ensures var r := Answer(sending, nuploads, q, h, now, max).1;
      && Distinct(r) && Entry(g, if h == g then now else t) in r
      && Waits(q, g) && Waits(r, g) && Place(r, g) <= Place(q, g)
  {
    hide *;
    AnswerMeans(sending, nuploads, q, h, now, max);
    var r := Answer(sending, nuploads, q, h, now, max).1;
    var t1 := Tidy(q, now);
    AnswerIsFair(sending, nuploads, q, h, now, max);
    TidyKeeps(q, g, t, now);
    RefreshedHas(t1, h, now);
    if h != g {
      PoppedKeeps(t1, h, Entry(g, t));
      RefreshedKeeps(t1, h, now, Entry(g, t));
    }
    MemberWaits(r, Entry(g, if h == g then now else t));
    PoppedDistinct(t1, h);
    PoppedPlaces(t1, h, g);
    RefreshedPlaces(t1, h, now, g);
  }

  lemma SendingElse(ups: seq<Upload>, id: nat, h: Host, g: Host)
    requires !SendingTo(ups, g) && g != h
    ensures !SendingTo([Upload(id, h, Sending)] + ups, g)
  {
    var l := [Upload(id, h, Sending)] + ups;
    forall i | 0 <= i < |l| && l[i].state == Sending
      ensures l[i].host != g
    {
      assert i > 0 ==> l[i] == ups[i - 1];
    }
  }

  lemma StepKeeps(s: State, e: Event, max: nat, g: Host, t: int)
    requires Queued(s, g, t) && (e.Request? ==> e.now - t <= 180)
    requires e.Request? && e.h == g ==> AnswerTo(s, e, max) != 0
    ensures var u := Step(s, e, max);
      && Queued(u, g, if e.Request? && e.h == g then e.now else t)
      && Waits(s.queue, g) && Waits(u.queue, g) && Place(u.queue, g) <= Place(s.queue, g)
  {
    MemberWaits(s.queue, Entry(g, t));
    if e.Request? {
      AnswerKeeps(SendingTo(s.uploads, e.h), Count(s.uploads), s.queue, e.h, e.now, max, g, t);
      if e.h != g {
        SendingElse(s.uploads, e.id, e.h, g);
      }
      hide Answer, Place, Waits;
    }
  }

  lemma LastAskedNext(events: seq<Event>, g: Host, t0: int)
    requires events != []
    ensures var e := events[|events| - 1];
      LastAsked(events, g, t0) == if e.Request? && e.h == g then e.now else LastAsked(events[..|events| - 1], g, t0)
  {
  }

  lemma FewerEvents(s: State, events: seq<Event>, max: nat, g: Host, t0: int)
    requires events != []
    ensures var first := events[..|events| - 1];
      && (KeepsAsking(events, g, t0) ==> KeepsAsking(first, g, t0))
      && (LetIn(s, first, max, g) ==> LetIn(s, events, max, g))
  {
    hide After, LastAsked, AnswerTo;
    var first := events[..|events| - 1];
    forall i: nat | i <= |first|
      ensures first[..i] == events[..i]
    {
    }
    if KeepsAsking(events, g, t0) {
      forall i: nat | i < |first| && first[i].Request?
        ensures first[i].now - LastAsked(first[..i], g, t0) <= 180
      {
        assert first[i] == events[i];
      }
    }
    if LetIn(s, first, max, g) {
      var i: nat :| i < |first| && first[i].Request? && first[i].h == g &&
          AnswerTo(After(s, first[..i], max), first[i], max) == 0;
      assert events[i] == first[i] && events[..i] == first[..i];
    }
  }

  lemma {:induction false} StillQueued(s: State, events: seq<Event>, max: nat, g: Host, t0: int)
    requires Queued(s, g, t0) && KeepsAsking(events, g, t0) && !LetIn(s, events, max, g)
    ensures var u := After(s, events, max);
      && Queued(u, g, LastAsked(events, g, t0))
      && Waits(s.queue, g) && Waits(u.queue, g) && Place(u.queue, g) <= Place(s.queue, g)
  {
    if events == [] {
      MemberWaits(s.queue, Entry(g, t0));
    } else {
      hide *;
      var n := |events| - 1;
      FewerEvents(s, events, max, g, t0);
      StillQueued(s, events[..n], max, g, t0);
      assert events[..n + 1] == events;
      AfterNext(s, events, n, max);
      LastAskedNext(events, g, t0);
      LastEvent(s, events, max, g, t0);
      StepKeeps(After(s, events[..n], max), events[n], max, g, LastAsked(events[..n], g, t0));
    }
  }

  lemma LastEvent(s: State, events: seq<Event>, max: nat, g: Host, t0: int)
    requires events != [] && KeepsAsking(events, g, t0) && !LetIn(s, events, max, g)
    ensures var n := |events| - 1;
      && (events[n].Request? ==> events[n].now - LastAsked(events[..n], g, t0) <= 180)
      && (events[n].Request? && events[n].h == g ==> AnswerTo(After(s, events[..n], max), events[n], max) != 0)
  {
  }

  /** Over any run: a host that keeps asking is let in at some time, or still waits, at
      a place no further back. */
  lemma PlaceNeverGrows(s: State, events: seq<Event>, max: nat, g: Host, t0: int)
    requires Distinct(s.queue) && Entry(g, t0) in s.queue && !SendingTo(s.uploads, g)
    requires KeepsAsking(events, g, t0)
    ensures LetIn(s, events, max, g) ||
      var q := After(s, events, max).queue;
      Waits(s.queue, g) && Waits(q, g) && Place(q, g) <= Place(s.queue, g)
  {
    hide After, Place, Waits;
    if !LetIn(s, events, max, g) {
      StillQueued(s, events, max, g, t0);
    }
  }

  class UpMan {
    /** AS_UPLOAD_MAX_ACTIVE */
    const maxActive: nat
    var uploads: seq<Upload>
    var queue: seq<Entry>
    var nuploads: nat
    var nqueued: nat

    ghost predicate Valid()
      reads this
    {
      && nqueued == |queue| && Distinct(queue)
      && nuploads == Count(uploads) <= maxActive && OneEach(uploads)
    }

    constructor (maxActive: nat)
      ensures Valid() && uploads == [] && queue == [] && this.maxActive == maxActive
    {
      this.maxActive, uploads, queue, nuploads, nqueued := maxActive, [], [], 0, 0;
    }

    /** `queue_remove` */
    method QueueRemove(i: nat)
      requires i < |queue| && nqueued == |queue|
      modifies this`queue, this`nqueued
      ensures queue == old(queue[..i] + queue[i + 1..]) && nqueued == |queue|
    {
      queue := queue[..i] + queue[i + 1..];
      nqueued := nqueued - 1;
    }

    /** `tidy_queue` */
    method TidyQueue(now: int)
      requires nqueued == |queue|
      modifies this`queue, this`nqueued
      ensures queue == Tidy(old(queue), now) && nqueued == |queue|
    {
      var i := 0;
      ghost var rest := queue;
      while i < |queue|
        invariant i <= |queue| && nqueued == |queue| && rest == queue[i..]
        invariant queue[..i] + Tidy(rest, now) == Tidy(old(queue), now)
        decreases |queue| - i
      {
        ghost var done := queue[..i];
        if Stale(queue[i], now) {
          QueueRemove(i);
          assert queue[..i] == done;
        } else {
          i := i + 1;
          assert queue[..i] == done + [rest[0]];
        }
        rest := rest[1..];
      }
    }

    /** `upman_auth`. When stale entries have just made room for a host that was not
        waiting, the code goes on to remove the entry of that host although it has no
        link to it (`unlinked`); here the entry is removed. */
    method Auth(h: Host, now: int) returns (pos: int, ghost unlinked: bool)
      requires Valid()
      modifies this`queue, this`nqueued
      ensures Valid()
      ensures (pos, queue) == Answer(SendingTo(uploads, h), nuploads, old(queue), h, now, maxActive)
      ensures unlinked <==> !SendingTo(uploads, h) && !Waits(Tidy(old(queue), now), h)
                            && |Tidy(old(queue), now)| + 1 + nuploads < maxActive <= nuploads + |old(queue)|
    {
      hide *;
      ValidMeans();
      AnswerIsFair(SendingTo(uploads, h), nuploads, queue, h, now, maxActive);
      AnswerMeans(SendingTo(uploads, h), nuploads, queue, h, now, maxActive);
      unlinked := false;
      var busy := IsSendingTo(h);
      if busy {
        return -1, false;
      }
      if nuploads + nqueued < maxActive {
        return 0, false;
      }
      TidyQueue(now);
      ghost var t := queue;
      var i := PlaceOf(h);
      WaitsMeans(t, h);
      RefreshedMeans(t, h, now);
      if i > |queue| {
        queue := queue + [Entry(h, now)];
        nqueued := nqueued + 1;
        unlinked := i + nuploads < maxActive;
      }
      if i + nuploads < maxActive {
        QueueRemove(i - 1);
        pos := 0;
      } else {
        queue := queue[i - 1 := Entry(h, now)];
        pos := i;
      }
      ValidMeans();
    }

    /** `as_upman_start`: ask the queue, and start the upload if it says so and nothing
        else (`goes`) stands against it; otherwise forget it. */
    method Start(id: nat, h: Host, now: int, goes: bool) returns (pos: int)
      requires Valid()
      modifies this
      ensures Valid()
      ensures (pos, queue) == Answer(SendingTo(old(uploads), h), old(nuploads), old(queue), h, now, maxActive)
      ensures uploads == if pos == 0 && goes then [Upload(id, h, Sending)] + old(uploads) else old(uploads)
    {
      hide *;
      ghost var before := uploads;
      ValidMeans();
      NewUpload(uploads, id, h);
      uploads := [Upload(id, h, New)] + uploads;
      ValidMeans();
      AnswerBounds(SendingTo(before, h), nuploads, queue, h, now, maxActive);
      pos := Ask(h, now);
      ValidMeans();
      if pos == 0 && goes {
        uploads := uploads[0 := uploads[0].(state := Sending)];
        nuploads := nuploads + 1;
      } else {
        uploads := uploads[1..];
      }
      ValidMeans();
    }

    /** `upload_auth_cb` */
    method Ask(h: Host, now: int) returns (pos: int)
      requires Valid()
      modifies this`queue, this`nqueued
      ensures Valid()
      ensures (pos, queue) == Answer(SendingTo(uploads, h), nuploads, old(queue), h, now, maxActive)
    {
      hide *;
      ghost var unlinked;
      pos, unlinked := Auth(h, now);
    }

    /** An active upload completes or is cancelled. */
    method Ends(i: nat, st: UploadState)
      requires Valid() && i < |uploads| && uploads[i].state == Sending && st in {Complete, Cancelled}
      modifies this`uploads, this`nuploads
      ensures Valid() && nuploads == old(nuploads) - 1
      ensures uploads == old(uploads)[i := old(uploads)[i].(state := st)]
    {
      hide *;
      ValidMeans();
      CountUpdate(uploads, i, st);
      EndsKeeps(uploads, i, st);
      uploads := uploads[i := uploads[i].(state := st)];
      nuploads := nuploads - 1;
      ValidMeans();
    }

    /** `as_upman_remove` */
    method RemoveUpload(i: nat)
      requires Valid() && i < |uploads|
      modifies this`uploads, this`nuploads
      ensures Valid() && uploads == old(uploads[..i] + uploads[i + 1..])
    {
      hide *;
      ValidMeans();
      CountWithout(uploads, i);
      WithoutKeeps(uploads, i);
      if uploads[i].state == Sending {
        nuploads := nuploads - 1;
      }
      uploads := uploads[..i] + uploads[i + 1..];
      ValidMeans();
    }

    /** Any run of requests, ends and removals. */
    method Run(events: seq<Event>)
      requires Valid()
      modifies this
      ensures Valid()
      ensures State(uploads, queue) == After(State(old(uploads), old(queue)), events, maxActive)
    {
      hide *;
      ghost var s0 := State(uploads, queue);
      AfterNothing(s0, maxActive);
      assert events[..0] == [];
      for i := 0 to |events|
        invariant Valid() && State(uploads, queue) == After(s0, events[..i], maxActive)
      {
        AfterNext(s0, events, i, maxActive);
        StepMeans(State(uploads, queue), events[i], maxActive);
        ValidMeans();
        match events[i]
        case Request(id, h, now, goes) => var _ := Start(id, h, now, goes);
        case End(k, st) =>
          if k < |uploads| && uploads[k].state == Sending && st in {Complete, Cancelled} {
            Ends(k, st);
          }
        case Forget(k) => if k < |uploads| { RemoveUpload(k); }
      }
      assert events[..|events|] == events;
    }

    method IsSendingTo(h: Host) returns (r: bool)
      ensures r == SendingTo(uploads, h)
    {
      for i := 0 to |uploads|
        invariant forall j :: 0 <= j < i ==> !(uploads[j].state == Sending && uploads[j].host == h)
      {
        if uploads[i].host == h && uploads[i].state == Sending {
          return true;
        }
      }
      r := false;
    }

    method PlaceOf(h: Host) returns (p: nat)
      ensures p == Place(queue, h)
    {
      p := 1;
      while p <= |queue| && queue[p - 1].host != h
        invariant 1 <= p <= |queue| + 1 && forall j :: 0 <= j < p - 1 ==> queue[j].host != h
      {
        p := p + 1;
      }
    }

    lemma ValidMeans()
      ensures Valid() <==>
        nqueued == |queue| && Distinct(queue) && nuploads == Count(uploads) <= maxActive && OneEach(uploads)
    {
    }
  }

  lemma AnswerMeans(sending: bool, nuploads: nat, q: seq<Entry>, h: Host, now: int, max: nat)
    ensures var (pos, r) := Answer(sending, nuploads, q, h, now, max);
      var t := Tidy(q, now);
      if sending then pos == -1 && r == q
      else if nuploads + |q| < max then pos == 0 && r == q
      else if Place(t, h) + nuploads < max then pos == 0 && r == Popped(t, h)
      else pos == Place(t, h) && r == Refreshed(t, h, now)
  {
  }

  /** The smallest queue with which the missing link matters. */
  lemma UnlinkedExample()
    ensures var q := [Entry(1, 0), Entry(2, 0)];
      !Waits(Tidy(q, 181), 3) && |Tidy(q, 181)| + 1 + 0 < 2 <= 0 + |q|
  {
    var q := [Entry(1, 0), Entry(2, 0)];
    assert q[1..] == [Entry(2, 0)] && q[1..][1..] == [];
    assert Tidy(q, 181) == [];
  }

  lemma RefreshedMeans(q: seq<Entry>, h: Host, now: int)
    ensures var p := Place(q, h);
      && 1 <= p <= |q| + 1
      && (p <= |q| ==> Popped(q, h) == q[..p - 1] + q[p..] && Refreshed(q, h, now) == q[p - 1 := Entry(h, now)])
      && (p > |q| ==> p == |q| + 1 && Popped(q, h) == q && Refreshed(q, h, now) == q + [Entry(h, now)])
      && (p > |q| ==> (q + [Entry(h, now)])[..p - 1] + (q + [Entry(h, now)])[p..] == q)
      && (p > |q| ==> (q + [Entry(h, now)])[p - 1 := Entry(h, now)] == q + [Entry(h, now)])
  {
  }
}
