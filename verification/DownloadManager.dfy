/** The download manager of gift-ares/lib/as_download_man.c. Changing the state of
    one download calls back into the manager, which may change the state of others,
    which calls back again. The callback of the user is passive. */
module DownloadManager {
  import opened Wrappers
  import opened DownloadStates
  import opened Listing

  type Id = nat

  type States = map<Id, DownloadState>

  function Among(m: States, st: DownloadState): set<Id> {
    set d | d in m && m[d] == st
  }

  /** At most `d` and downloads that wait have changed. */
  ghost predicate OnlyWaiting(a: States, b: States, d: Id) {
    && a.Keys == b.Keys
    && (forall e :: e in a && e != d && a[e] != Held ==> b[e] == a[e])
    && (forall e :: e in b && e != d && b[e] == Held ==> a[e] == Held)
  }

  /** Nothing but `d` has changed. */
  ghost predicate OnlyOne(a: States, b: States, d: Id) {
    a.Keys == b.Keys && forall e :: e in a && e != d ==> b[e] == a[e]
  }

  /** Slots go to the head of the list `l` first: if one that waited waits still, then
      of those that waited behind it none has come past it. (One for which there was no
      slot after all is paused if it cannot be put on hold again.) */
  ghost predicate InOrder(l: seq<Id>, a: States, b: States, d: Id) {
    forall i, j ::
      0 <= i < j < |l| && l[i] != d && l[j] != d && Waited(a, l[i]) && Waited(a, l[j]) && Waited(b, l[i]) && l[j] in b
      ==> b[l[j]] in {Held, Paused}
  }

  predicate Waited(m: States, e: Id) { e in m && m[e] == Held }

  datatype Op =
    | Start(dl: Id, h: nat)
    | Restart(dl: Id, h: nat, paused: bool)
    | SetPaused(dl: Id, pause: bool)
    | Cancel(dl: Id)
    | Remove(dl: Id)
    | Complete(dl: Id)
    | Stop(stop: bool)

  class Manager {
    /** AS_DOWNLOAD_MAX_ACTIVE */
    const maxActive: nat
    var downloads: seq<Id>
    var state: States
    var stopped: bool
    /** `hash_index`, and the hash of every download. */
    var index: map<nat, Id>
    var hash: map<Id, nat>

    /** Holds after every operation. */
    ghost predicate Valid()
      reads this
    {
      Listed(downloads, state) && Settled() && NoneWhileStopped() && Indexed(index, hash, state.Keys)
    }

    ghost predicate NoneWhileStopped()
      reads this`state, this`stopped
    {
      stopped ==> Among(state, Active) == {}
    }

    constructor (maxActive: nat)
      ensures Valid() && downloads == [] && !stopped && this.maxActive == maxActive
    {
      this.maxActive := maxActive;
      downloads, state, stopped, index, hash := [], map[], false, map[], map[];
    }

    /** Not more downloads are active than allowed, and none waits while a slot is
        free. */
    ghost predicate Settled()
      reads this`state, this`stopped
    {
      !stopped ==>
        |Among(state, Active)| <= maxActive && (|Among(state, Active)| < maxActive ==> Among(state, Held) == {})
    }

    /** How many downloads may still be started from where we are. */
    ghost function Work(): nat
      reads this`state, this`stopped
    {
      if stopped || |Among(state, Active)| >= maxActive then 0 else |Among(state, Held)|
    }

    /** `dl` has just become active and must not. */
    ghost predicate Over(dl: Id)
      reads this`state, this`stopped
    {
      dl in state && state[dl] == Active && (|Among(state, Active)| > maxActive || stopped)
    }

    /** Apart from `dl` the limit is kept. */
    ghost predicate Bounded(dl: Id)
      reads this`state, this`stopped
    {
      !stopped ==> |Among(state, Active) - {dl}| <= maxActive
    }

    /** Without `dl` there is no slot to fill. */
    ghost predicate Quiet(dl: Id)
      reads this`state, this`stopped
    {
      stopped || |Among(state, Active) - {dl}| >= maxActive
    }

    /** `active_downloads` */
    method ActiveDownloads() returns (n: nat)
      requires Listed(downloads, state)
      ensures n == |Among(state, Active)|
    {
      hide *;
      n := 0;
      ActiveInNone(downloads, state);
      for i := 0 to |downloads|
        invariant n == |ActiveIn(downloads, i, state)|
      {
        ActiveInNext(downloads, i, state);
        if state[downloads[i]] == Active {
          n := n + 1;
        }
      }
      ActiveInAll(downloads, state);
    }

    /** `download_state_cb`. `n` bounds how many downloads it can start. */
    method StateCb(dl: Id, ghost n: nat) returns (ret: bool)
      requires Listed(downloads, state) && dl in state && state[dl] != New
      requires Bounded(dl) && (Over(dl) || Work() <= n)
      requires state[dl] == Held ==> Quiet(dl)
      modifies this`state
      ensures Listed(downloads, state) && dl in state && Settled()
      ensures OnlyWaiting(old(state), state, dl)
      ensures old(Over(dl)) ==> state[dl] == (if ret then Held else Paused)
      ensures !old(Over(dl)) ==> ret && state[dl] == old(state)[dl]
      ensures old(Over(dl) || Work() == 0) ==> OnlyOne(old(state), state, dl)
      ensures InOrder(downloads, old(state), state, dl)
      decreases n, if Over(dl) then 9 else if Work() > 0 then 12 else 6
    {
      hide *;
      Meanings(dl);
      SameStates(state, dl);
      var active := ActiveDownloads();
      if state[dl] == Active && (active > maxActive || stopped) {
        ret := Queue(dl, n);
        OnlyOneWaits(old(state), state, dl);
        OrderOne(downloads, old(state), state, dl);
        return;
      }
      ret := true;
      if !stopped {
        NotOver(state, dl);
        Fill(dl, active, n);
      } else {
        Meanings(dl);
        OrderOne(downloads, state, state, dl);
      }
    }

    /** Start waiting downloads, from the head of the list on, while fewer than
        allowed are thought to be active. What it thinks may be out of date: the
        calls it makes start and stop others. */
    method Fill(dl: Id, active0: nat, ghost n: nat)
      requires Listed(downloads, state) && dl in state && (state[dl] == Held ==> active0 >= maxActive)
      requires !stopped && active0 == |Among(state, Active)| <= maxActive && Work() <= n
      modifies this`state
      ensures Listed(downloads, state) && dl in state && Settled() && OnlyWaiting(old(state), state, dl) &&
          state[dl] == old(state)[dl]
      ensures old(Work()) == 0 ==> state == old(state)
      ensures InOrder(downloads, old(state), state, dl)
      decreases n, if Work() > 0 then 11 else 5
    {
      hide *;
      var active, i := active0, 0;
      ghost var called := false;
      SameStates(state, dl);
      OrderOne(downloads, state, state, dl);
      NoneBeforeNext(downloads, state, 0);
      while active < maxActive && i < |downloads|
        invariant Listed(downloads, state) && !stopped && |Among(state, Active)| <= maxActive && i <= |downloads|
        invariant InOrder(downloads, old(state), state, dl)
        invariant dl in state && OnlyWaiting(old(state), state, dl) && state[dl] == old(state)[dl]
        invariant active >= active0 && (called ==> Settled() && old(Work()) > 0)
        invariant !called ==> state == old(state) && active == |Among(state, Active)|
        invariant !called ==> NoneBefore(downloads, state, i)
        decreases |downloads| - i
      {
        var q := downloads[i];
        ListedAt(downloads, state, i);
        NoneBeforeNext(downloads, state, i);
        if state[q] == Held {
          Meanings(dl);
          FewerWait(old(state), state, dl);
          WaitingCounts(state, q);
          ghost var before := state;
          Meanings(q);
          var ok := Resume(q, n);
          called := true;
          OrderResumed(downloads, old(state), before, state, dl, i);
          StillOnlyWaiting(old(state), before, state, dl, q);
          Meanings(q);
          if ok {
            active := active + 1;
          }
        }
        i := i + 1;
      }
      if !called {
        NoneWaits(downloads, state, i);
        Meanings(dl);
      }
    }

    /** `as_download_queue` */
    method Queue(dl: Id, ghost n: nat) returns (ret: bool)
      requires Listed(downloads, state) && dl in state && Quiet(dl) && Bounded(dl)
      modifies this`state
      ensures Listed(downloads, state) && dl in state && OnlyOne(old(state), state, dl) && Settled()
      ensures old(state)[dl] in {Active, Paused} ==> state[dl] == if ret then Held else Paused
      ensures old(state)[dl] !in {Active, Paused} ==> state[dl] == old(state)[dl] && (ret <==> state[dl] == Held)
      decreases n, 8
    {
      hide *;
      SameStates(state, dl);
      Meanings(dl);
      if state[dl] == Held {
        NotActive(state, dl);
        return true;
      }
      if state[dl] != Active && state[dl] != Paused {
        NotActive(state, dl);
        return false;
      }
      var saved: bool := *;
      if !saved {
        var _ := Pause(dl, n);
        return false;
      }
      Change(state, dl, Held);
      ChangeListed(downloads, state, dl, Held);
      state := state[dl := Held];
      Meanings(dl);
      ret := StateCb(dl, n);
      OneThenOne(old(state), dl, Held, state);
    }

    /** `as_download_pause` */
    method Pause(dl: Id, ghost n: nat) returns (ret: bool)
      requires Listed(downloads, state) && dl in state && Bounded(dl)
      requires Quiet(dl) || (Settled() && |Among(state, Held)| <= n)
      modifies this`state
      ensures Listed(downloads, state) && dl in state && Settled() && OnlyWaiting(old(state), state, dl)
      ensures ret <==> old(state)[dl] in {Active, Held, Paused}
      ensures state[dl] == if ret then Paused else old(state)[dl]
      ensures old(Quiet(dl)) ==> OnlyOne(old(state), state, dl)
      ensures InOrder(downloads, old(state), state, dl)
      decreases n, if Quiet(dl) then 7 else 16
    {
      hide *;
      SameStates(state, dl);
      Meanings(dl);
      OrderOne(downloads, state, state, dl);
      if state[dl] != Active && state[dl] != Held {
        NotActive(state, dl);
        return state[dl] == Paused;
      }
      Change(state, dl, Paused);
      ChangeListed(downloads, state, dl, Paused);
      state := state[dl := Paused];
      Meanings(dl);
      NotActive(state, dl);
      ret := StateCb(dl, n);
      OrderThen(downloads, old(state), dl, Paused, state);
      OneThenWaiting(old(state), dl, Paused, state);
      OneThenOne(old(state), dl, Paused, state);
    }

    /** `as_download_resume` */
    method Resume(dl: Id, ghost n: nat) returns (ret: bool)
      requires Listed(downloads, state) && dl in state && (!stopped ==> |Among(state, Active)| <= maxActive)
      requires if state[dl] == Held then Work() <= n else Settled() && |Among(state, Held)| <= n
      modifies this`state
      ensures Listed(downloads, state) && dl in state && Settled() && OnlyWaiting(old(state), state, dl)
      ensures old(state)[dl] == Held && old(Work()) == 0 ==> OnlyOne(old(state), state, dl)
      ensures old(state)[dl] !in {Held, Paused} ==> state == old(state)
      ensures stopped ==> OnlyOne(old(state), state, dl) && (old(state)[dl] != Active ==> state[dl] != Active)
      ensures InOrder(downloads, old(state), state, dl)
      ensures old(state)[dl] == Held ==>
        if stopped || |Among(old(state), Active)| >= maxActive
        then state[dl] in {Held, Paused} && OnlyOne(old(state), state, dl)
        else state[dl] in {Active, Finished, Broken}
      decreases n, if state[dl] == Held then 10 else 17
    {
      hide *;
      SameStates(state, dl);
      Meanings(dl);
      OrderOne(downloads, state, state, dl);
      if state[dl] == Active {
        return true;
      }
      if state[dl] != Paused && state[dl] != Held {
        return false;
      }
      ghost var left: nat := n;
      Change(state, dl, Active);
      ChangeListed(downloads, state, dl, Active);
      state := state[dl := Active];
      Meanings(dl);
      if old(state)[dl] == Held && !Over(dl) {
        left := n - 1;
      }
      ghost var begun := state;
      ret := StateCb(dl, left);
      OneThenWaiting(old(state), dl, Active, state);
      OneThenOne(old(state), dl, Active, state);
      OrderThen(downloads, old(state), dl, Active, state);
      if ret && state[dl] == Active {
        FewerWait(begun, state, dl);
        ghost var before := state;
        Maintain(dl, left);
        WaitingTwice(old(state), before, state, dl);
        OrderTwice(downloads, old(state), before, state, dl);
      }
    }

    /** `download_maintain`, as far as the manager can tell: the download may turn out
        to be complete. */
    method Maintain(dl: Id, ghost n: nat)
      requires Listed(downloads, state) && dl in state && state[dl] == Active && Settled() && !stopped &&
          |Among(state, Held)| <= n
      modifies this`state
      ensures Listed(downloads, state) && dl in state && Settled() && OnlyWaiting(old(state), state, dl)
      ensures state[dl] in {Active, Finished, Broken} && InOrder(downloads, old(state), state, dl)
      decreases n, 15
    {
      hide *;
      OrderOne(downloads, state, state, dl);
      SameStates(state, dl);
      var complete: bool := *;
      if complete {
        Finish(dl, n);
      }
    }

    /** `download_finished` */
    method Finish(dl: Id, ghost n: nat)
      requires Listed(downloads, state) && dl in state && state[dl] == Active && Settled() && |Among(state, Held)| <= n
      modifies this`state
      ensures Listed(downloads, state) && dl in state && Settled() && OnlyWaiting(old(state), state, dl)
      ensures state[dl] in {Finished, Broken} && InOrder(downloads, old(state), state, dl)
      decreases n, 14
    {
      hide *;
      Leave(dl, Verifying, n);
      ghost var before := state;
      FewerWait(old(state), state, dl);
      var ok: bool := *;
      Leave(dl, if ok then Finished else Broken, n);
      WaitingTwice(old(state), before, state, dl);
      OrderTwice(downloads, old(state), before, state, dl);
    }

    /** Go to a state that takes no slot, and tell the manager. */
    method Leave(dl: Id, st: DownloadState, ghost n: nat)
      requires Listed(downloads, state) && dl in state && Settled() && |Among(state, Held)| <= n
      requires st !in {New, Active, Held, state[dl]}
      modifies this`state
      ensures Listed(downloads, state) && dl in state && Settled() && OnlyWaiting(old(state), state, dl) &&
          state[dl] == st
      ensures |Among(state, Held)| <= n && (stopped ==> OnlyOne(old(state), state, dl))
      ensures InOrder(downloads, old(state), state, dl)
      decreases n, 13
    {
      hide *;
      Meanings(dl);
      Change(state, dl, st);
      ChangeListed(downloads, state, dl, st);
      state := state[dl := st];
      Meanings(dl);
      NotActive(state, dl);
      ghost var begun := state;
      var _ := StateCb(dl, n);
      OneThenWaiting(old(state), dl, st, state);
      OneThenOne(old(state), dl, st, state);
      OrderThen(downloads, old(state), dl, st, state);
      FewerWait(begun, state, dl);
    }

    // ------------------------------------------------------------ the operations

    /** `as_downman_stop_all (TRUE)` */
    method StopAll()
      requires Valid()
      modifies this`stopped, this`state
      ensures Valid() && stopped
      ensures forall d :: d in state ==>
          if old(state)[d] in {Active, Paused} then state[d] in {Held, Paused} else state[d] == old(state)[d]
    {
      hide *;
      Parts();
      stopped := true;
      for i := 0 to |downloads|
        invariant Listed(downloads, state) && stopped && state.Keys == old(state).Keys
        invariant Stopping(old(state), state, downloads, i)
      {
        var d := downloads[i];
        ListedAt(downloads, state, i);
        Meanings(d);
        ghost var before := state;
        var _ := Queue(d, 0);
        StoppingNext(old(state), before, state, downloads, i);
      }
      StoppingDone(old(state), state, downloads);
      Meanings(0);
      FromParts();
    }

    /** Resume the download at position `i` if it waits. */
    method ResumeAt(i: nat, ghost n: nat) returns (ok: bool, ghost called: bool)
      requires Listed(downloads, state) && i < |downloads| && !stopped
      requires |Among(state, Active)| <= maxActive && |Among(state, Held)| <= n
      modifies this`state
      ensures Listed(downloads, state) && |Among(state, Active)| <= maxActive && |Among(state, Held)| <= n
      ensures Waiters(old(state), state)
      ensures called ==> Settled()
      ensures called ==> Resumes(old(state), state, i)
      ensures !called ==> state == old(state) && !ok && downloads[i] in state && state[downloads[i]] != Held
    {
      hide *;
      var q := downloads[i];
      ListedAt(downloads, state, i);
      Waits(state);
      Meanings(q);
      ok, called := false, false;
      if state[q] == Held {
        ghost var before := state;
        ok := Resume(q, n);
        called := true;
        StillWaiters(before, before, state, q);
        Meanings(q);
        ResumesMeans(before, state, i);
      }
    }

    /** The download at position `i` has been given a slot if there was one. */
    ghost predicate Resumes(a: States, b: States, i: nat)
      reads this`downloads
      requires i < |downloads|
    {
      var q := downloads[i];
      && OnlyWaiting(a, b, q) && InOrder(downloads, a, b, q) && q in a && a[q] == Held
      && if |Among(a, Active)| >= maxActive then b[q] in {Held, Paused} && OnlyOne(a, b, q) else b[q] != Held
    }

    lemma ResumesMeans(a: States, b: States, i: nat)
      requires i < |downloads|
      ensures var q := downloads[i];
        Resumes(a, b, i) <==>
          && OnlyWaiting(a, b, q) && InOrder(downloads, a, b, q) && q in a && a[q] == Held
          && if |Among(a, Active)| >= maxActive then b[q] in {Held, Paused} && OnlyOne(a, b, q) else b[q] != Held
    {
    }

    lemma ResumesInOrder(a: States, b: States, c: States, i: nat)
      requires i < |downloads| && Listed(downloads, b) && forall d :: InOrder(downloads, a, b, d)
      requires Resumes(b, c, i) && (|Among(b, Active)| >= maxActive || NoneBefore(downloads, b, i))
      ensures forall d :: InOrder(downloads, a, c, d)
    {
      hide *;
      ResumesMeans(b, c, i);
      forall d
        ensures InOrder(downloads, a, c, d)
      {
        OrderResumed(downloads, a, b, c, d, i);
      }
    }

    /** `as_downman_stop_all (FALSE)` */
    method ResumeAll()
      requires Valid()
      modifies this`stopped, this`state
      ensures Valid() && !stopped
      ensures forall d :: d in state && old(state)[d] != Held ==> state[d] == old(state)[d]
      ensures forall d :: InOrder(downloads, old(state), state, d)
    {
      hide *;
      Parts();
      Meanings(0);
      OrderStarts(downloads, state);
      stopped := false;
      var active, i := 0, 0;
      ghost var n, called := |Among(state, Held)|, false;
      Waits(state);
      NoneBeforeNext(downloads, state, 0);
      while active < maxActive && i < |downloads|
        invariant Listed(downloads, state) && !stopped && |Among(state, Active)| <= maxActive && i <= |downloads|
        invariant Waiters(old(state), state) && |Among(state, Held)| <= n
        invariant forall d :: InOrder(downloads, old(state), state, d)
        invariant called ==> Settled()
        invariant !called ==> state == old(state) && active == 0 && NoneBefore(downloads, state, i)
        decreases |downloads| - i
      {
        ghost var before := state;
        NoneBeforeNext(downloads, state, i);
        Meanings(0);
        var ok, tried := ResumeAt(i, n);
        if tried {
          ResumesMeans(before, state, i);
          WaitingCounts(before, downloads[i]);
          ResumesInOrder(old(state), before, state, i);
        }
        WaitersTwice(old(state), before, state);
        called := called || tried;
        active := active + if ok then 1 else 0;
        i := i + 1;
      }
      NoneWaitsIf(downloads, state, i);
      Meanings(0);
      WaitersKeep(old(state), state);
      FromParts();
    }

    /** A new download announces its first state. */
    method Enter(dl: Id, st: DownloadState) returns (ok: bool)
      requires Listed(downloads, state) && dl in state && state[dl] == New && Calm() && st in {Active, Paused}
      modifies this`state
      ensures Listed(downloads, state) && dl in state && Calm() && OnlyWaiting(old(state), state, dl)
      ensures !ok ==> state[dl] == Paused
      ensures state[dl] in {Active, Held, Paused}
      ensures state[dl] == Active ==> Among(state, Held) == {}
    {
      hide *;
      CalmMeans();
      Meanings(dl);
      Change(state, dl, st);
      ChangeListed(downloads, state, dl, st);
      NoneActive(state, dl, st);
      state := state[dl := st];
      Meanings(dl);
      NotActive(state, dl);
      ghost var begun := state;
      ok := StateCb(dl, |Among(state, Held)|);
      OneThenWaiting(old(state), dl, st, state);
      StillNoneActive(begun, state, dl);
      StillNoneHeld(old(state), state, dl);
      CalmMeans();
    }

    /** `as_download_start`. Gives false if the download could not even be put on
        hold. */
    method StartDownload(dl: Id) returns (ok: bool)
      requires Listed(downloads, state) && dl in state && state[dl] == New && Calm()
      modifies this`state
      ensures Listed(downloads, state) && dl in state && Calm() && OnlyWaiting(old(state), state, dl)
      ensures state[dl] != New && (!ok ==> state[dl] == Paused)
    {
      hide *;
      ok := Enter(dl, Active);
      if !ok {
        return;
      }
      ghost var before := state;
      var saved: bool := *;
      if !saved {
        var _ := PauseCalm(dl);
        WaitingTwice(old(state), before, state, dl);
      } else if state[dl] == Active {
        MaintainCalm(dl);
        WaitingTwice(old(state), before, state, dl);
      }
    }

    /** `Pause` between operations. */
    method PauseCalm(dl: Id) returns (ret: bool)
      requires Listed(downloads, state) && dl in state && Calm()
      modifies this`state
      ensures Listed(downloads, state) && dl in state && Calm() && OnlyWaiting(old(state), state, dl)
      ensures ret <==> old(state)[dl] in {Active, Held, Paused}
      ensures state[dl] == if ret then Paused else old(state)[dl]
      ensures InOrder(downloads, old(state), state, dl)
    {
      hide *;
      CalmMeans();
      Meanings(dl);
      ActiveWithout(state, dl);
      ret := Pause(dl, |Among(state, Held)|);
      StillNoneActive(old(state), state, dl);
      NotActiveIf(old(state), dl);
      CalmMeans();
    }

    method MaintainCalm(dl: Id)
      requires Listed(downloads, state) && dl in state && state[dl] == Active && Calm()
      modifies this`state
      ensures Listed(downloads, state) && dl in state && Calm() && OnlyWaiting(old(state), state, dl)
      ensures state[dl] in {Active, Finished, Broken}
    {
      hide *;
      CalmMeans();
      NotActiveIf(state, dl);
      Maintain(dl, |Among(state, Held)|);
      CalmMeans();
    }

    /** What holds between operations, apart from the index. */
    ghost predicate Calm()
      reads this`state, this`stopped
    {
      Settled() && (stopped ==> Among(state, Active) == {})
    }

    lemma CalmMeans()
      ensures Calm() <==> Settled() && (stopped ==> Among(state, Active) == {})
    {
    }

    /** Prepend a new download to the list. */
    method Link(dl: Id)
      requires Listed(downloads, state) && Calm() && dl !in state
      modifies this`downloads, this`state
      ensures Listed(downloads, state) && Calm() && dl in state && state == old(state)[dl := New]
    {
      hide *;
      CalmMeans();
      Meanings(dl);
      LinkFacts(downloads, state, dl);
      downloads := [dl] + downloads;
      state := state[dl := New];
      Meanings(dl);
      CalmMeans();
    }

    /** `list_find` */
    method PositionOf(dl: Id) returns (i: nat)
      requires dl in downloads
      ensures i < |downloads| && downloads[i] == dl
    {
      i := 0;
      while downloads[i] != dl
        invariant i < |downloads| && dl in downloads[i..]
        decreases |downloads| - i
      {
        i := i + 1;
      }
    }

    /** Remove a download from the list and free it. */
    method Unlink(dl: Id)
      requires Listed(downloads, state) && Calm() && dl in state
      modifies this`downloads, this`state
      ensures Listed(downloads, state) && state == old(state) - {dl} && (stopped ==> Among(state, Active) == {})
      ensures old(state)[dl] != Active || Among(old(state), Held) == {} ==> Calm()
    {
      hide *;
      CalmMeans();
      Meanings(dl);
      UnlinkFacts(downloads, state, dl);
      var i := PositionOf(dl);
      WithoutListed(downloads, state, i);
      downloads := Without(downloads, i);
      state := state - {dl};
      Meanings(dl);
      CalmMeans();
    }

    /** `as_downman_start_result` with a download `dl` made for it. */
    method StartResult(dl: Id, h: nat) returns (r: Option<Id>)
      requires Valid() && dl !in state
      modifies this
      ensures Valid()
      ensures h in old(index) ==> r == Some(old(index)[h]) && state == old(state)
      ensures h !in old(index) ==>
        (r == Some(dl) && dl in state && hash[dl] == h) || (r == None && state.Keys == old(state).Keys)
      ensures forall d :: d in old(state) && old(state)[d] != Held ==> d in state && state[d] == old(state)[d]
    {
      hide *;
      Parts();
      if h in index {
        IndexedAt(index, hash, state.Keys, h);
        return Some(index[h]);
      }
      CalmMeans();
      ghost var before := state;
      Link(dl);
      ghost var linked := state;
      var ok := StartDownload(dl);
      OthersKept(before, linked, state, dl);
      if !ok {
        Unlink(dl);
        UnlinkedKeys(before, linked, state, dl);
        CalmMeans();
        FromParts();
        return None;
      }
      IndexedAdd(index, hash, before.Keys, dl, h);
      LinkedKeys(before, linked, state, dl);
      index := index[h := dl];
      hash := hash[dl := h];
      CalmMeans();
      FromParts();
      r := Some(dl);
    }

    /** `as_download_restart` for a download that is put into the list. */
    method BeginRestart(dl: Id, paused: bool) returns (ok: bool)
      requires Listed(downloads, state) && Calm() && dl !in state
      modifies this`downloads, this`state
      ensures Listed(downloads, state) && Calm() && dl in state && state.Keys == old(state).Keys + {dl}
      ensures forall e :: e in old(state) && old(state)[e] != Held ==>
          e in state && state[e] == old(state)[e] && e != dl
      ensures !ok ==> state[dl] == Paused
      ensures state[dl] == Active ==> Among(state, Held) == {}
    {
      hide *;
      Link(dl);
      ghost var linked := state;
      ok := Enter(dl, if paused then Paused else Active);
      ghost var entered := state;
      if ok && state[dl] == Active {
        MaintainCalm(dl);
        WaitingTwice(linked, entered, state, dl);
        StillNoneHeld(entered, state, dl);
      }
      OthersKept(old(state), linked, state, dl);
      LinkedKeys(old(state), linked, state, dl);
    }

    /** `as_downman_restart_file` with a download `dl` made for the file. Only after it
        has started is its hash looked up; if another download has that hash, `dl` is
        thrown away. Nobody takes the slot it may have had by then, but it could only
        get it because nobody was waiting. */
    method RestartFile(dl: Id, h: nat, paused: bool) returns (r: Option<Id>)
      requires Valid() && dl !in state
      modifies this
      ensures Valid()
      ensures (r == Some(dl) && h !in old(index) && dl in state && hash[dl] == h) ||
          (r == None && state.Keys == old(state).Keys)
      ensures h in old(index) ==> r == None
      ensures forall d :: d in old(state) && old(state)[d] != Held ==> d in state && state[d] == old(state)[d]
    {
      hide *;
      Parts();
      CalmMeans();
      ghost var before := state;
      var ok := BeginRestart(dl, paused);
      if !ok || h in index {
        Unlink(dl);
        WithoutAgain(before, state, dl);
        CalmMeans();
        FromParts();
        return None;
      }
      IndexedAdd(index, hash, before.Keys, dl, h);
      index := index[h := dl];
      hash := hash[dl := h];
      CalmMeans();
      FromParts();
      r := Some(dl);
    }

    /** `as_downman_pause`. A download that waits for a slot is not resumed. */
    method PauseDownload(dl: Id, pause: bool) returns (ret: bool)
      requires Valid()
      modifies this`state
      ensures Valid() && state.Keys == old(state).Keys
      ensures dl in old(state) && pause ==>
          (ret <==> old(state)[dl] in {Active, Held, Paused}) && (ret ==> state[dl] == Paused)
      ensures dl !in old(state) ==> !ret && state == old(state)
      ensures InOrder(downloads, old(state), state, dl)
      ensures forall d :: d in state && d != dl && old(state)[d] != Held ==> state[d] == old(state)[d]
    {
      hide *;
      Parts();
      CalmMeans();
      SameStates(state, dl);
      OrderOne(downloads, state, state, dl);
      if dl !in state {
        OnlyWaitingMeans(state, state, dl);
        return false;
      }
      if pause {
        ret := PauseCalm(dl);
      } else if state[dl] != Held {
        ret := ResumeCalm(dl);
      } else {
        ret := false;
      }
      OnlyWaitingMeans(old(state), state, dl);
      CalmMeans();
      FromParts();
    }

    /** `Resume` between operations, for a download that does not wait. */
    method ResumeCalm(dl: Id) returns (ret: bool)
      requires Listed(downloads, state) && dl in state && state[dl] != Held && Calm()
      modifies this`state
      ensures Listed(downloads, state) && dl in state && Calm() && OnlyWaiting(old(state), state, dl)
      ensures InOrder(downloads, old(state), state, dl)
    {
      hide *;
      CalmMeans();
      Meanings(dl);
      NotActiveIf(state, dl);
      ret := Resume(dl, |Among(state, Held)|);
      StillNoneActive(old(state), state, dl);
      CalmMeans();
    }

    /** A download leaves the game: it is cancelled, completes or fails. */
    method LeaveCalm(dl: Id, st: DownloadState)
      requires Listed(downloads, state) && dl in state && Calm() && st !in {New, Active, Held, state[dl]}
      modifies this`state
      ensures Listed(downloads, state) && dl in state && Calm() && OnlyWaiting(old(state), state, dl) && state[dl] == st
      ensures InOrder(downloads, old(state), state, dl)
    {
      hide *;
      CalmMeans();
      Meanings(dl);
      NotActiveIf(state, dl);
      Leave(dl, st, |Among(state, Held)|);
      StillNoneActive(old(state), state, dl);
      CalmMeans();
    }

    /** `as_downman_cancel` */
    method CancelDownload(dl: Id) returns (ret: bool)
      requires Valid()
      modifies this`state
      ensures Valid() && state.Keys == old(state).Keys
      ensures ret <==> dl in old(state) && old(state)[dl] in {Active, Held, Paused}
      ensures ret ==> state[dl] == Cancelled
      ensures InOrder(downloads, old(state), state, dl)
      ensures forall d :: d in state && d != dl && old(state)[d] != Held ==> state[d] == old(state)[d]
    {
      hide *;
      Parts();
      CalmMeans();
      SameStates(state, dl);
      OrderOne(downloads, state, state, dl);
      ret := dl in state && state[dl] in {Active, Held, Paused};
      if ret {
        LeaveCalm(dl, Cancelled);
      }
      OnlyWaitingMeans(old(state), state, dl);
      CalmMeans();
      FromParts();
    }

    /** An active download has got all its bytes (`download_finished`). */
    method Completes(dl: Id)
      requires Valid() && dl in state && state[dl] == Active
      modifies this`state
      ensures Valid() && state.Keys == old(state).Keys && state[dl] in {Finished, Broken}
      ensures InOrder(downloads, old(state), state, dl)
      ensures forall d :: d in state && d != dl && old(state)[d] != Held ==> state[d] == old(state)[d]
    {
      hide *;
      Parts();
      CalmMeans();
      NotActiveIf(state, dl);
      Finish(dl, |Among(state, Held)|);
      OnlyWaitingMeans(old(state), state, dl);
      CalmMeans();
      FromParts();
    }

    /** `as_downman_remove` */
    method RemoveDownload(dl: Id) returns (ret: bool)
      requires Valid()
      modifies this
      ensures Valid()
      ensures ret <==> dl in old(state) && old(state)[dl] in {New, Finished, Broken, Cancelled}
      ensures state == if ret then old(state) - {dl} else old(state)
    {
      hide *;
      Parts();
      CalmMeans();
      if dl !in state || state[dl] !in {New, Finished, Broken, Cancelled} {
        return false;
      }
      IndexedDrop(index, hash, state.Keys, dl);
      WithoutKeys(state, dl);
      index := index - {hash[dl]};
      hash := hash - {dl};
      Unlink(dl);
      CalmMeans();
      FromParts();
      ret := true;
    }

    /** Any run of operations. */
    method Run(ops: seq<Op>)
      requires Valid()
      modifies this
      ensures Valid()
    {
      for i := 0 to |ops|
        invariant Valid()
      {
        match ops[i]
        case Start(dl, h) => if dl !in state { var _ := StartResult(dl, h); }
        case Restart(dl, h, paused) => if dl !in state { var _ := RestartFile(dl, h, paused); }
        case SetPaused(dl, pause) => var _ := PauseDownload(dl, pause);
        case Cancel(dl) => var _ := CancelDownload(dl);
        case Remove(dl) => var _ := RemoveDownload(dl);
        case Complete(dl) => if dl in state && state[dl] == Active { Completes(dl); }
        case Stop(stop) => if stop { StopAll(); } else { ResumeAll(); }
      }
    }

    lemma Parts()
      requires Valid()
      ensures Listed(downloads, state) && Settled() && Indexed(index, hash, state.Keys)
      ensures stopped ==> Among(state, Active) == {}
      ensures !stopped ==> |Among(state, Active)| <= maxActive
      ensures Stopping(state, state, downloads, 0)
    {
    }

    lemma FromParts()
      requires Listed(downloads, state) && Settled() && Indexed(index, hash, state.Keys)
      requires stopped ==> Among(state, Active) == {}
      ensures Valid()
    {
    }

    lemma Meanings(dl: Id)
      ensures Settled() <==> (!stopped ==>
          |Among(state, Active)| <= maxActive && (|Among(state, Active)| < maxActive ==> Among(state, Held) == {}))
      ensures Work() == if stopped || |Among(state, Active)| >= maxActive then 0 else |Among(state, Held)|
      ensures Over(dl) <==> dl in state && state[dl] == Active && (|Among(state, Active)| > maxActive || stopped)
      ensures Bounded(dl) <==> (!stopped ==> |Among(state, Active) - {dl}| <= maxActive)
      ensures Quiet(dl) <==> stopped || |Among(state, Active) - {dl}| >= maxActive
      ensures |Among(state, Held)| == 0 <==> Among(state, Held) == {}
    {
    }
  }

  /** The hash index and the list hold the same downloads, one for each hash. */
  ghost predicate Indexed(index: map<nat, Id>, hash: map<Id, nat>, ids: set<Id>) {
    && hash.Keys == ids
    && (forall d :: d in ids ==> hash[d] in index && index[hash[d]] == d)
    && (forall h :: h in index ==> index[h] in ids && hash[index[h]] == h)
  }

  /** The first `i` downloads of the list have been put on hold. */
  ghost predicate Stopping(a: States, b: States, downloads: seq<Id>, i: nat) {
    a.Keys == b.Keys && forall d :: d in a ==>
      if d in downloads[..if i <= |downloads| then i else |downloads|] && a[d] in {Active, Paused}
      then b[d] in {Held, Paused} else b[d] == a[d]
  }

  lemma StoppingNext(a: States, b: States, c: States, downloads: seq<Id>, i: nat)
    requires i < |downloads| && Stopping(a, b, downloads, i) && Listed(downloads, b) && OnlyOne(b, c, downloads[i])
    requires b[downloads[i]] in {Active, Paused} ==> c[downloads[i]] in {Held, Paused}
    requires b[downloads[i]] !in {Active, Paused} ==> c[downloads[i]] == b[downloads[i]]
    ensures Stopping(a, c, downloads, i + 1)
  {
    assert downloads[..i + 1] == downloads[..i] + [downloads[i]];
    assert downloads[i] !in downloads[..i];
  }

  lemma StoppingDone(a: States, b: States, downloads: seq<Id>)
    requires Stopping(a, b, downloads, |downloads|) && Listed(downloads, b)
    ensures Among(b, Active) == {}
    ensures forall d :: d in b ==> if a[d] in {Active, Paused} then b[d] in {Held, Paused} else b[d] == a[d]
  {
    assert downloads[..|downloads|] == downloads;
  }

  lemma OrderStarts(l: seq<Id>, m: States)
    ensures forall d :: InOrder(l, m, m, d)
  {
  }

  lemma OrderOne(l: seq<Id>, a: States, b: States, d: Id)
    requires OnlyOne(a, b, d)
    ensures InOrder(l, a, b, d)
  {
  }

  lemma OrderThen(l: seq<Id>, a: States, d: Id, st: DownloadState, c: States)
    requires InOrder(l, a[d := st], c, d)
    ensures InOrder(l, a, c, d)
  {
  }

  lemma OrderTwice(l: seq<Id>, a: States, b: States, c: States, d: Id)
    requires InOrder(l, a, b, d) && InOrder(l, b, c, d) && OnlyWaiting(a, b, d) && OnlyWaiting(b, c, d)
    ensures InOrder(l, a, c, d)
  {
  }

  /** The download at position `k` is given a slot: either there is one, and nobody waits
      before it, or there is none. */
  lemma OrderResumed(l: seq<Id>, a: States, b: States, c: States, d: Id, k: nat)
    requires k < |l| && Listed(l, b) && InOrder(l, a, b, d) && InOrder(l, b, c, l[k])
    requires OnlyWaiting(b, c, l[k]) && l[k] in b && b[l[k]] == Held
    requires (NoneBefore(l, b, k) && c[l[k]] != Held) || (OnlyOne(b, c, l[k]) && c[l[k]] in {Held, Paused})
    ensures InOrder(l, a, c, d)
  {
    var q := l[k];
    forall i, j | 0 <= i < j < |l| && l[i] != d && l[j] != d && Waited(a, l[i]) && Waited(a, l[j]) && Waited(c, l[i]) &&
        l[j] in c
      ensures c[l[j]] in {Held, Paused}
    {
      assert b[l[i]] == Held;
      assert b[l[j]] in {Held, Paused};
    }
  }

  /** Only downloads that wait have changed. */
  ghost predicate Waiters(a: States, b: States) {
    && a.Keys == b.Keys
    && (forall e :: e in a && a[e] != Held ==> b[e] == a[e])
  }

  lemma Waits(m: States)
    ensures Waiters(m, m)
  {
  }

  lemma StillWaiters(a: States, b: States, c: States, q: Id)
    requires Waiters(a, b) && OnlyWaiting(b, c, q) && q in b && b[q] == Held
    ensures Waiters(a, c) && |Among(c, Held)| <= |Among(b, Held)|
  {
    FewerWait(b, c, q);
  }

  lemma WaitersTwice(a: States, b: States, c: States)
    requires Waiters(a, b) && Waiters(b, c)
    ensures Waiters(a, c)
  {
  }

  lemma NoneWaitsIf(downloads: seq<Id>, m: States, i: nat)
    requires Listed(downloads, m)
    ensures NoneBefore(downloads, m, i) && i >= |downloads| ==> Among(m, Held) == {}
  {
    if NoneBefore(downloads, m, i) {
      NoneWaits(downloads, m, i);
    }
  }

  lemma WaitersKeep(a: States, b: States)
    requires Waiters(a, b)
    ensures a.Keys == b.Keys && forall d :: d in b && a[d] != Held ==> b[d] == a[d]
  {
  }

  /** The active ones among the first `i` downloads. */
  ghost function ActiveIn(downloads: seq<Id>, i: nat, m: States): set<Id> {
    set d | d in m && m[d] == Active && d in downloads[..if i <= |downloads| then i else |downloads|]
  }

  lemma ActiveInNone(downloads: seq<Id>, m: States)
    ensures ActiveIn(downloads, 0, m) == {}
  {
  }

  lemma ActiveInNext(downloads: seq<Id>, i: nat, m: States)
    requires Listed(downloads, m) && i < |downloads|
    ensures downloads[i] in m
    ensures |ActiveIn(downloads, i + 1, m)| == |ActiveIn(downloads, i, m)| + if m[downloads[i]] == Active then 1 else 0
  {
    var d := downloads[i];
    assert d in downloads;
    assert downloads[..i + 1] == downloads[..i] + [d];
    assert d !in downloads[..i];
    assert ActiveIn(downloads, i + 1, m) == ActiveIn(downloads, i, m) + if m[d] == Active then {d} else {};
  }

  lemma ActiveInAll(downloads: seq<Id>, m: States)
    requires Listed(downloads, m)
    ensures ActiveIn(downloads, |downloads|, m) == Among(m, Active)
  {
    assert downloads[..|downloads|] == downloads;
  }

  lemma SameStates(m: States, d: Id)
    ensures OnlyWaiting(m, m, d) && OnlyOne(m, m, d)
  {
  }

  lemma LinkFacts(downloads: seq<Id>, m: States, d: Id)
    requires Listed(downloads, m) && d !in m
    ensures Listed([d] + downloads, m[d := New])
    ensures Among(m[d := New], Active) == Among(m, Active) && Among(m[d := New], Held) == Among(m, Held)
  {
    var l := [d] + downloads;
    forall i, j | 0 <= i < j < |l|
      ensures l[i] != l[j]
    {
      assert l[j] == downloads[j - 1] && downloads[j - 1] in downloads;
      if i > 0 {
        assert l[i] == downloads[i - 1];
      }
    }
  }

  lemma UnlinkFacts(downloads: seq<Id>, m: States, d: Id)
    requires Listed(downloads, m) && d in m
    ensures d in downloads && downloads != [] && d !in downloads[..0]
    ensures Among(m - {d}, Active) == Among(m, Active) - {d} && Among(m - {d}, Held) == Among(m, Held) - {d}
    ensures m[d] == Active ==> d in Among(m, Active) && |Among(m, Active) - {d}| == |Among(m, Active)| - 1
    ensures m[d] != Active ==> Among(m, Active) - {d} == Among(m, Active)
    ensures Among(m, Held) == {} ==> Among(m, Held) - {d} == {}
    ensures Among(m, Active) == {} ==> Among(m, Active) - {d} == {} && m[d] != Active
  {
  }

  lemma IndexedAt(index: map<nat, Id>, hash: map<Id, nat>, ids: set<Id>, h: nat)
    requires Indexed(index, hash, ids) && h in index
    ensures index[h] in ids
  {
  }

  lemma IndexedAdd(index: map<nat, Id>, hash: map<Id, nat>, ids: set<Id>, d: Id, h: nat)
    requires Indexed(index, hash, ids) && h !in index && d !in ids
    ensures Indexed(index[h := d], hash[d := h], ids + {d})
  {
  }

  lemma IndexedDrop(index: map<nat, Id>, hash: map<Id, nat>, ids: set<Id>, d: Id)
    requires Indexed(index, hash, ids) && d in ids
    ensures d in hash && Indexed(index - {hash[d]}, hash - {d}, ids - {d})
  {
  }

  /** From before a new download was linked until it has started. */
  lemma OthersKept(before: States, linked: States, after: States, d: Id)
    requires d !in before && linked == before[d := New] && OnlyWaiting(linked, after, d)
    ensures forall e :: e in before && before[e] != Held ==> e in after && after[e] == before[e] && e != d
  {
  }

  lemma LinkedKeys(before: States, linked: States, after: States, d: Id)
    requires linked == before[d := New] && OnlyWaiting(linked, after, d)
    ensures after.Keys == before.Keys + {d}
  {
  }

  lemma UnlinkedKeys(before: States, linked: States, after: States, d: Id)
    requires d !in before && linked == before[d := New]
    requires exists mid :: OnlyWaiting(linked, mid, d) && after == mid - {d}
    ensures after.Keys == before.Keys
  {
  }

  lemma WithoutAgain(before: States, after: States, d: Id)
    ensures forall mid: States :: d !in before && mid.Keys == before.Keys + {d} && after == mid - {d} ==>
        after.Keys == before.Keys
  {
  }

  lemma WithoutKeys(m: States, d: Id)
    ensures (m - {d}).Keys == m.Keys - {d}
  {
  }

  lemma OnlyWaitingMeans(a: States, b: States, d: Id)
    requires OnlyWaiting(a, b, d)
    ensures a.Keys == b.Keys && forall e :: e in b && e != d && a[e] != Held ==> b[e] == a[e]
  {
  }

  lemma NoneActive(m: States, d: Id, st: DownloadState)
    requires d in m
    ensures Among(m, Active) == {} && st != Active ==> Among(m[d := st], Active) == {}
    ensures Among(m, Active) == {} ==> Among(m[d := st], Active) - {d} == {}
  {
  }

  lemma StillNoneActive(a: States, b: States, d: Id)
    requires d in b
    ensures OnlyOne(a, b, d) && Among(a, Active) - {d} == {} && b[d] != Active ==> Among(b, Active) == {}
  {
  }

  /** Where a download has a slot and only those waiting have changed, none waits if
      none did. */
  lemma StillNoneHeld(a: States, b: States, d: Id)
    requires d in b
    ensures OnlyWaiting(a, b, d) && Among(a, Held) == {} && b[d] != Held ==> Among(b, Held) == {}
  {
  }

  lemma ActiveWithout(m: States, d: Id)
    ensures |Among(m, Active) - {d}| <= |Among(m, Active)|
  {
    Subset(Among(m, Active) - {d}, Among(m, Active));
  }

  lemma NotActiveIf(m: States, d: Id)
    requires d in m
    ensures Among(m, Active) == {} ==> m[d] != Active && Among(m, Active) - {d} == {}
  {
    assert m[d] == Active ==> d in Among(m, Active);
  }

  lemma OnlyOneWaits(a: States, b: States, d: Id)
    requires OnlyOne(a, b, d)
    ensures OnlyWaiting(a, b, d)
  {
  }

  lemma NotActive(m: States, d: Id)
    requires d in m
    ensures m[d] != Active ==> Among(m, Active) - {d} == Among(m, Active)
  {
  }

  /** Without `d` there is one active download less if `d` is one. */
  lemma NotOver(m: States, d: Id)
    requires d in m
    ensures |Among(m, Active) - {d}| == |Among(m, Active)| - if m[d] == Active then 1 else 0
  {
    NotActive(m, d);
  }

  lemma WaitingCounts(m: States, q: Id)
    requires q in m && m[q] == Held
    ensures |Among(m, Held)| > 0
  {
    assert q in Among(m, Held);
  }

  lemma NoneWaits(downloads: seq<Id>, m: States, i: nat)
    requires Listed(downloads, m) && NoneBefore(downloads, m, i)
    ensures i >= |downloads| ==> Among(m, Held) == {}
  {
  }

  /** None of the first `i` downloads waits. */
  ghost predicate NoneBefore(downloads: seq<Id>, m: States, i: nat) {
    forall j: nat :: j < i && j < |downloads| ==> downloads[j] in m && m[downloads[j]] != Held
  }

  lemma NoneBeforeNext(downloads: seq<Id>, m: States, i: nat)
    ensures NoneBefore(downloads, m, 0)
    ensures NoneBefore(downloads, m, i) && i < |downloads| && downloads[i] in m && m[downloads[i]] != Held ==>
        NoneBefore(downloads, m, i + 1)
  {
  }

  lemma FewerWait(a: States, b: States, d: Id)
    requires OnlyWaiting(a, b, d) && d in a && (b[d] == Held ==> a[d] == Held)
    ensures |Among(b, Held)| <= |Among(a, Held)|
  {
    Subset(Among(b, Held), Among(a, Held));
  }

  lemma Subset(a: set<Id>, b: set<Id>)
    requires a <= b
    ensures |a| <= |b|
  {
    assert b == a + (b - a);
  }

  lemma StillOnlyWaiting(a: States, b: States, c: States, d: Id, q: Id)
    requires OnlyWaiting(a, b, d) && q in b && b[q] == Held && OnlyWaiting(b, c, q) && d in b && b[d] == a[d]
    ensures d != q ==> OnlyWaiting(a, c, d) && (b[d] != Held ==> c[d] == b[d])
  {
  }

  /** How changing one download changes who is in which state. */
  lemma ChangeOne(m: States, d: Id, st: DownloadState, x: DownloadState)
    requires d in m && m[d] != st
    ensures Among(m[d := st], x) - {d} == Among(m, x) - {d}
    ensures |Among(m[d := st], x)| == |Among(m, x)| + (if st == x then 1 else 0) - if m[d] == x then 1 else 0
  {
    var w := m[d := st];
    assert Among(w, x) - {d} == Among(m, x) - {d};
    WithoutOne(w, d, x);
    WithoutOne(m, d, x);
  }

  lemma WithoutOne(m: States, d: Id, x: DownloadState)
    requires d in m
    ensures |Among(m, x) - {d}| == |Among(m, x)| - if m[d] == x then 1 else 0
  {
    if m[d] != x {
      assert Among(m, x) - {d} == Among(m, x);
    }
  }

  lemma Change(m: States, d: Id, st: DownloadState)
    requires d in m && m[d] != st
    ensures Among(m[d := st], Active) - {d} == Among(m, Active) - {d}
    ensures |Among(m[d := st], Active)| == |Among(m, Active)| + (if st == Active then 1 else 0) -
        if m[d] == Active then 1 else 0
    ensures |Among(m[d := st], Held)| == |Among(m, Held)| + (if st == Held then 1 else 0) -
        if m[d] == Held then 1 else 0
  {
    ChangeOne(m, d, st, Active);
    ChangeOne(m, d, st, Held);
  }

  lemma ChangeListed(downloads: seq<Id>, m: States, d: Id, st: DownloadState)
    requires Listed(downloads, m) && d in m
    ensures Listed(downloads, m[d := st])
  {
  }

  lemma OneThenOne(a: States, d: Id, st: DownloadState, c: States)
    requires d in a
    ensures OnlyOne(a[d := st], c, d) ==> OnlyOne(a, c, d)
  {
    assert a[d := st].Keys == a.Keys;
  }

  lemma OneThenWaiting(a: States, d: Id, st: DownloadState, c: States)
    requires d in a && OnlyWaiting(a[d := st], c, d)
    ensures OnlyWaiting(a, c, d)
  {
    assert a[d := st].Keys == a.Keys;
  }

  lemma WaitingTwice(a: States, b: States, c: States, d: Id)
    requires OnlyWaiting(a, b, d) && OnlyWaiting(b, c, d)
    ensures OnlyWaiting(a, c, d)
  {
  }
}
