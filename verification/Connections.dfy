/** The record of one download connection (gift-ares/lib/as_download_conn.c):
    its request, its statistics, and the order the download keeps connections in. */
module Connections {
  import opened Wrappers
  import opened Ordering

  datatype ConnState = Unused | Connecting | Transferring | Failed | Complete | Queued

  /** `chunk` is the chunk the connection fetches (`udata2`), named by its start.
      A `requestTime` of zero means that no request is being timed. */
  datatype Conn = Conn(
    chunk: Option<nat>,
    state: ConnState,
    chunkStart: nat,
    chunkSize: nat,
    curr: nat,
    requestTime: nat,
    histDownloaded: nat,
    histTime: nat,
    failCount: nat,
    queueNextTry: nat) {

    predicate Busy() { state.Connecting? || state.Transferring? }

    /** Average speed over past requests. */
    function HistSpeed(): nat {
      if histTime == 0 then 0 else histDownloaded / histTime
    }

    /** Average speed over past requests plus that of the running one. */
    function Speed(now: nat): nat {
      HistSpeed() + if requestTime > 0 && now > requestTime then curr / (now - requestTime) else 0
    }

    function Reset(): Conn { this.(chunkStart := 0, chunkSize := 0) }

    /** `downconn_update_stats`: book the request that just ended, once. */
    function UpdateStats(now: nat): Conn {
      if requestTime == 0 then this
      else
        var delta := if now > requestTime then now - requestTime else 1;
        this.(histDownloaded := histDownloaded + curr, histTime := histTime + delta, curr := 0, requestTime := 0)
    }

    /** `as_downconn_cancel`. */
    function Cancel(now: nat): Conn { UpdateStats(now).Reset().(state := Unused) }

    /** `as_downconn_start` with the request on its way. */
    function Started(start: nat, size: nat): Conn {
      this.(chunkStart := start, chunkSize := size, curr := 0, requestTime := 0, state := Connecting)
    }

    /** The last `n` bytes of the request have come. */
    function Done(n: nat, now: nat): Conn {
      this.(curr := curr + n).UpdateStats(now).Reset().(state := Complete)
    }

    /** A request that failed or timed out: it counts against the source only if it was
        never answered. */
    function Lost(): Conn {
      this.(failCount := failCount + if state.Connecting? then 1 else 0).Reset().(state := Failed)
    }

    /** A 503 reply. */
    function PutOff(until: nat): Conn {
      this.(queueNextTry := until, failCount := 0).Reset().(state := Queued)
    }

    /** A reply other than 503 that the request cannot go on with. */
    function Rejected(): Conn {
      this.(queueNextTry := 0, failCount := failCount + 1).Reset().(state := Failed)
    }

    /** A reply with the range that was asked for. */
    function Accepted(now: nat): Conn {
      this.(queueNextTry := 0, failCount := 0, requestTime := now, state := Transferring)
    }

    /** The remote has not told us to come back later than `now`. */
    predicate Eligible(now: nat) { !state.Queued? || queueNextTry <= now }
  }

  const NewConn := Conn(None, Unused, 0, 0, 0, 0, 0, 0, 0, 0)

  /** What `conn_cmp_func` reads of a connection. */
  datatype Rank = Rank(used: bool, speed: nat)

  /** Unused connections first, then the fastest first. */
  function RankCmp(a: Rank, b: Rank): int {
    if a.used && !b.used then 1
    else if !a.used && b.used then -1
    else if a.speed < b.speed then 1
    else if a.speed > b.speed then -1
    else 0
  }

  lemma RankIsComparison()
    ensures Comparison(RankCmp)
  {
  }

  function RankOf(k: Conn): Rank { Rank(k.chunk.Some?, k.HistSpeed()) }

  /** Speed is bytes over seconds, rounded down: what past requests brought in the time
      they took, and on top of that what the running one has brought so far. */
  lemma SpeedIsRate(k: Conn, now: nat)
    ensures k.histTime == 0 ==> k.HistSpeed() == 0
    ensures k.histTime > 0 ==> k.HistSpeed() * k.histTime <= k.histDownloaded < (k.HistSpeed() + 1) * k.histTime
    ensures k.requestTime == 0 || now <= k.requestTime ==> k.Speed(now) == k.HistSpeed()
    ensures 0 < k.requestTime < now ==>
      var extra, seconds := k.Speed(now) - k.HistSpeed(), now - k.requestTime;
      extra >= 0 && extra * seconds <= k.curr < (extra + 1) * seconds
  {
    if k.histTime > 0 {
      Floor(k.histDownloaded, k.histTime);
    }
    if 0 < k.requestTime < now {
      Floor(k.curr, now - k.requestTime);
    }
  }

  lemma Floor(n: nat, d: nat)
    requires d > 0
    ensures n / d * d <= n < (n / d + 1) * d
  {
  }

  /** The statistics are booked at most once: a second cancellation, whenever it
      comes, changes nothing. A request that took less than a second counts as one. */
  lemma CancelTwice(k: Conn, t1: nat, t2: nat)
    ensures k.Cancel(t1).Cancel(t2) == k.Cancel(t1)
    ensures k.Cancel(t1).state == Unused
    ensures k.Cancel(t1).histDownloaded == k.histDownloaded + if k.requestTime == 0 then 0 else k.curr
    ensures k.Cancel(t1).histTime - k.histTime ==
      if k.requestTime == 0 then 0 else if t1 <= k.requestTime then 1 else t1 - k.requestTime
    ensures k.Cancel(t1).failCount == k.failCount && k.Cancel(t1).queueNextTry == k.queueNextTry
  {
  }

  /** A request that is completed books its last bytes too. */
  lemma DoneBooks(k: Conn, n: nat, now: nat)
    requires k.requestTime > 0
    ensures k.Done(n, now).histDownloaded == k.histDownloaded + k.curr + n
    ensures k.Done(n, now).histTime == k.histTime + if now <= k.requestTime then 1 else now - k.requestTime
    ensures k.Done(n, now).state == Complete && k.Done(n, now).failCount == k.failCount
    ensures k.Done(n, now).Cancel(now).histTime == k.Done(n, now).histTime
    ensures k.Done(n, now).Cancel(now).histDownloaded == k.Done(n, now).histDownloaded
  {
  }
}
