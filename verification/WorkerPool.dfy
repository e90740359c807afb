/** The pool of worker processes: tasks reserve an idle process or start one, and hand it back after one command. */
module WorkerPool {
  import opened Outcomes

  type Worker = nat

  const WORKER_MAX_IDLE_TIME: int := 300

  datatype Idle = Idle(worker: Worker, since: int)

  function Names(idle: seq<Idle>): set<Worker> {
    if idle == [] then {} else {idle[0].worker} + Names(idle[1..])
  }

  lemma {:induction false} NamesAt(idle: seq<Idle>, i: nat)
    requires i < |idle|
    ensures idle[i].worker in Names(idle)
  {
    if i > 0 { NamesAt(idle[1..], i - 1); }
  }

  lemma {:induction false} NamesFrom(idle: seq<Idle>, w: Worker) returns (i: nat)
    requires w in Names(idle)
    ensures i < |idle| && idle[i].worker == w
  {
    i := 0;
    if idle[0].worker != w {
      i := NamesFrom(idle[1..], w);
      i := i + 1;
    }
  }

  function Workers(idle: seq<Idle>): seq<Worker> {
    seq(|idle|, i requires 0 <= i < |idle| => idle[i].worker)
  }

  /** No process is queued twice, and the queue is in the order in which the processes became idle. */
  ghost predicate Queued(idle: seq<Idle>) {
    && (forall i, j :: 0 <= i < j < |idle| ==> idle[i].worker != idle[j].worker)
    && (forall i, j :: 0 <= i <= j < |idle| ==> idle[i].since <= idle[j].since)
  }

  lemma {:induction false} NamesOfParts(idle: seq<Idle>, n: nat)
    requires n <= |idle|
    ensures Names(idle) == Names(idle[..n]) + Names(idle[n..])
  {
    if n == 0 {
      assert idle[0..] == idle;
    } else {
      NamesOfParts(idle[1..], n - 1);
      assert idle[1..][..n - 1] == idle[..n][1..] && idle[1..][n - 1..] == idle[n..];
    }
  }

  lemma QueuedParts(idle: seq<Idle>, n: nat)
    requires Queued(idle) && n <= |idle|
    ensures Queued(idle[..n]) && Queued(idle[n..])
    ensures Names(idle[..n]) !! Names(idle[n..])
  {
    forall w | w in Names(idle[..n]) ensures w !in Names(idle[n..]) {
      var i := NamesFrom(idle[..n], w);
      NotAgain(idle, n, i);
    }
  }

  lemma NotAgain(idle: seq<Idle>, n: nat, i: nat)
    requires Queued(idle) && i < n <= |idle|
    ensures idle[i].worker !in Names(idle[n..])
  {
    if idle[i].worker in Names(idle[n..]) {
      var j := NamesFrom(idle[n..], idle[i].worker);
      assert false;
    }
  }

  lemma NamesOfOne(i: Idle)
    ensures Names([i]) == {i.worker}
  {
    assert [i][1..] == [];
  }

  lemma NamesOfNext(idle: seq<Idle>, n: nat)
    requires n < |idle|
    ensures Names(idle[..n + 1]) == Names(idle[..n]) + {idle[n].worker}
    ensures Names(idle[n..]) == Names(idle[n + 1..]) + {idle[n].worker}
  {
    NamesOfParts(idle[..n + 1], n);
    assert idle[..n + 1][..n] == idle[..n] && idle[..n + 1][n..] == [idle[n]];
    NamesOfOne(idle[n]);
    assert idle[n..][1..] == idle[n + 1..];
  }

  // ----- reserving a process --------------------------------------------------------------------

  /** The queue without the exited processes at its right end. */
  function UpToLive(idle: seq<Idle>, exited: set<Worker>): (live: seq<Idle>)
    ensures |live| <= |idle| && live == idle[..|live|]
  {
    if idle == [] || idle[|idle| - 1].worker !in exited then idle else UpToLive(idle[..|idle| - 1], exited)
  }

  predicate Overdue(i: Idle, now: int) {
    now - i.since >= WORKER_MAX_IDLE_TIME
  }

  /** How many processes are killed at the left end: the overdue ones, up to the first whose kill raises. */
  function Kills(idle: seq<Idle>, raising: set<Worker>, now: int): (m: nat)
    ensures m <= |idle|
  {
    if idle == [] || !Overdue(idle[0], now) || idle[0].worker in raising then 0 else 1 + Kills(idle[1..], raising, now)
  }

  /** The pruning ends at a kill that raises. */
  predicate Stuck(idle: seq<Idle>, raising: set<Worker>, now: int) {
    var m := Kills(idle, raising, now);
    m < |idle| && Overdue(idle[m], now)
  }

  /** Where the queue goes on after the pruning: a process whose kill raises has been popped as well. */
  function Cut(idle: seq<Idle>, raising: set<Worker>, now: int): (k: nat)
    ensures Kills(idle, raising, now) <= k <= |idle|
  {
    Kills(idle, raising, now) + if Stuck(idle, raising, now) then 1 else 0
  }

  lemma {:induction false} UpToLiveIs(idle: seq<Idle>, exited: set<Worker>)
    ensures var live := UpToLive(idle, exited);
            && (forall i :: |live| <= i < |idle| ==> idle[i].worker in exited)
            && (live != [] ==> live[|live| - 1].worker !in exited)
  {
    if idle != [] && idle[|idle| - 1].worker in exited { UpToLiveIs(idle[..|idle| - 1], exited); }
  }

  lemma {:induction false} KillsIs(idle: seq<Idle>, raising: set<Worker>, now: int)
    ensures var m := Kills(idle, raising, now);
            && (forall i :: 0 <= i < m ==> Overdue(idle[i], now) && idle[i].worker !in raising)
            && (m < |idle| ==> !Overdue(idle[m], now) || idle[m].worker in raising)
  {
    var m := Kills(idle, raising, now);
    if m > 0 {
      KillsIs(idle[1..], raising, now);
      forall i | 0 <= i < m ensures Overdue(idle[i], now) && idle[i].worker !in raising {
        if i > 0 { assert idle[i] == idle[1..][i - 1]; }
      }
    }
  }

  datatype Reservation =
    Reservation(workers: set<Worker>, idle: seq<Idle>, worker: Outcome<Option<Worker>>, killed: seq<Worker>)

  /** raising are the processes whose kill would raise. */
  function Reserve(workers: set<Worker>, idle: seq<Idle>, exited: set<Worker>, raising: set<Worker>,
                   now: int): Reservation {
    var live := UpToLive(idle, exited);
    if live == [] then Reservation(workers - Names(idle), [], Ok(None), [])
    else
      var rest := live[..|live| - 1];
      var stale := rest[..Kills(rest, raising, now)];
      Reservation(workers - Names(idle[|live|..]) - Names(stale), rest[Cut(rest, raising, now)..],
                  if Stuck(rest, raising, now) then Raised(NoSuchProcess) else Ok(Some(live[|live| - 1].worker)),
                  Workers(stale))
  }

  /** The pruning gets stuck exactly if there is an overdue process whose kill raises. */
  lemma StuckExactly(idle: seq<Idle>, raising: set<Worker>, now: int)
    requires Queued(idle)
    ensures Stuck(idle, raising, now) <==>
            exists i :: 0 <= i < |idle| && now - idle[i].since >= 300 && idle[i].worker in raising
  {
    KillsIs(idle, raising, now);
    var m := Kills(idle, raising, now);
    if i :| 0 <= i < |idle| && now - idle[i].since >= 300 && idle[i].worker in raising {
      assert m <= i && idle[m].since <= idle[i].since;
    }
  }

  /**
   Exactly the overdue processes are killed that are queued before every overdue one whose kill raises. Those that are
   not overdue stay queued, and those behind such a process.
   */
  lemma PrunesExactly(idle: seq<Idle>, raising: set<Worker>, now: int, i: nat)
    requires Queued(idle) && i < |idle|
    ensures idle[i].worker in Workers(idle[..Kills(idle, raising, now)]) <==>
            now - idle[i].since >= 300 && forall j :: 0 <= j <= i ==> idle[j].worker !in raising
    ensures idle[i].worker in Names(idle[Cut(idle, raising, now)..]) <==>
            now - idle[i].since < 300 || exists j :: 0 <= j < i && idle[j].worker in raising
  {
    KillsIs(idle, raising, now);
    var m, k := Kills(idle, raising, now), Cut(idle, raising, now);
    PlaceInParts(idle, m, i);
    PlaceInParts(idle, k, i);
    assert forall j :: 0 <= j <= i && Overdue(idle[i], now) ==> Overdue(idle[j], now);
    assert m <= i && !Overdue(idle[m], now) ==> !Overdue(idle[i], now);
  }

  lemma PlaceInParts(idle: seq<Idle>, n: nat, i: nat)
    requires Queued(idle) && i < |idle| && n <= |idle|
    ensures idle[i].worker in Workers(idle[..n]) <==> i < n
    ensures idle[i].worker in Names(idle[n..]) <==> n <= i
  {
    if i < n {
      assert Workers(idle[..n])[i] == idle[i].worker;
      NotAgain(idle, n, i);
    } else {
      NamesAt(idle[n..], i - n);
    }
  }

  /** No process is taken, and so one is started, exactly if all queued ones have exited. */
  lemma TakesUnlessExited(workers: set<Worker>, idle: seq<Idle>, exited: set<Worker>, raising: set<Worker>, now: int)
    ensures Reserve(workers, idle, exited, raising, now).worker == Ok(None) <==>
            forall i :: 0 <= i < |idle| ==> idle[i].worker in exited
  {
    UpToLiveIs(idle, exited);
    var live := UpToLive(idle, exited);
    if live != [] { assert idle[|live| - 1] == live[|live| - 1]; }
  }

  /** If a process is taken it is the last one in the queue that has not exited. */
  lemma TakesNewestLive(workers: set<Worker>, idle: seq<Idle>, exited: set<Worker>, raising: set<Worker>, now: int,
                        n: nat)
    requires Queued(idle) && n < |idle| && LastLive(idle, exited, n)
    ensures Reserve(workers, idle, exited, raising, now).worker ==
            if exists i :: 0 <= i < n && now - idle[i].since >= 300 && idle[i].worker in raising
            then Raised(NoSuchProcess) else Ok(Some(idle[n].worker))
  {
    LiveIs(idle, exited, n);
    SliceOfFront(idle, n + 1, n);
    QueuedParts(idle, n);
    StuckExactly(idle[..n], raising, now);
    assert forall i :: 0 <= i < n ==> idle[..n][i] == idle[i];
  }

  lemma LiveIs(idle: seq<Idle>, exited: set<Worker>, n: nat)
    requires n < |idle| && LastLive(idle, exited, n)
    ensures UpToLive(idle, exited) == idle[..n + 1]
  {
    UpToLiveIs(idle, exited);
    var live := UpToLive(idle, exited);
    assert |live| > n;
    assert idle[|live| - 1] == live[|live| - 1];
  }

  ghost predicate LastLive(idle: seq<Idle>, exited: set<Worker>, i: nat)
    requires i < |idle|
  {
    idle[i].worker !in exited && forall j :: i < j < |idle| ==> idle[j].worker in exited
  }

  /** The queue is the stale part, what the pruning stopped at, the kept part, the process at n and the exited ones. */
  lemma Pieces(idle: seq<Idle>, m: nat, k: nat, n: nat)
    requires Queued(idle) && m <= k <= n < |idle|
    ensures Queued(idle[k..n])
    ensures Names(idle) ==
              Names(idle[..m]) + Names(idle[m..k]) + Names(idle[k..n]) + {idle[n].worker} + Names(idle[n + 1..])
    ensures Names(idle[..m]) !! Names(idle[m..k]) !! Names(idle[k..n]) !! {idle[n].worker} !! Names(idle[n + 1..])
  {
    AroundOne(idle, n);
    FrontPieces(idle[..n], m, k);
    FrontOfFront(idle, n, m);
    FrontOfFront(idle, n, k);
    assert idle[..n][m..k] == idle[m..k];
  }

  lemma AroundOne(idle: seq<Idle>, n: nat)
    requires Queued(idle) && n < |idle|
    ensures Queued(idle[..n])
    ensures Names(idle) == Names(idle[..n]) + {idle[n].worker} + Names(idle[n + 1..])
    ensures Names(idle[..n]) !! {idle[n].worker} !! Names(idle[n + 1..])
  {
    NamesOfParts(idle, n);
    QueuedParts(idle, n);
    NamesOfNext(idle, n);
    QueuedParts(idle[n..], 1);
    assert idle[n..][..1] == [idle[n]] && idle[n..][1..] == idle[n + 1..];
    NamesOfOne(idle[n]);
  }

  lemma FrontPieces(idle: seq<Idle>, m: nat, k: nat)
    requires Queued(idle) && m <= k <= |idle|
    ensures Queued(idle[k..])
    ensures Names(idle) == Names(idle[..m]) + Names(idle[m..k]) + Names(idle[k..])
    ensures Names(idle[..m]) !! Names(idle[m..k]) !! Names(idle[k..])
  {
    NamesOfParts(idle, k);
    QueuedParts(idle, k);
    NamesOfParts(idle[..k], m);
    QueuedParts(idle[..k], m);
    assert idle[..k][..m] == idle[..m] && idle[..k][m..] == idle[m..k];
  }

  /**
   The process whose kill raises and the one that had been taken: both are still in the pool, but not in the queue.
   */
  function Dropped(idle: seq<Idle>, exited: set<Worker>, raising: set<Worker>, now: int): set<Worker> {
    var live := UpToLive(idle, exited);
    if live == [] then {}
    else
      var rest := live[..|live| - 1];
      if Stuck(rest, raising, now) then {rest[Kills(rest, raising, now)].worker, live[|live| - 1].worker} else {}
  }

  lemma ReserveForm(workers: set<Worker>, idle: seq<Idle>, exited: set<Worker>, raising: set<Worker>, now: int)
    returns (m: nat, k: nat, n: nat)
    requires UpToLive(idle, exited) != []
    ensures m <= k <= m + 1 && k <= n < |idle|
    ensures Reserve(workers, idle, exited, raising, now) ==
            Reservation(workers - Names(idle[n + 1..]) - Names(idle[..m]), idle[k..n],
                        if m < k then Raised(NoSuchProcess) else Ok(Some(idle[n].worker)), Workers(idle[..m]))
    ensures Dropped(idle, exited, raising, now) == if m < k then Names(idle[m..k]) + {idle[n].worker} else {}
  {
    var live := UpToLive(idle, exited);
    n := |live| - 1;
    m, k := Kills(live[..n], raising, now), Cut(live[..n], raising, now);
    SliceOfFront(idle, |live|, n);
    FrontOfFront(idle, n, m);
    FrontOfFront(idle, n, k);
    if m < k {
      NamesOfOne(idle[m]);
      assert idle[m..k] == [idle[m]];
    }
  }

  lemma SliceOfFront(s: seq<Idle>, k: nat, n: nat)
    requires n <= k <= |s|
    ensures s[..k][..n] == s[..n]
  {
  }

  lemma FrontOfFront(s: seq<Idle>, n: nat, m: nat)
    requires m <= n <= |s|
    ensures s[..n][..m] == s[..m] && s[..n][m..] == s[m..n]
  {
  }

  function Taken(r: Reservation): set<Worker> {
    match r.worker
    case Ok(Some(w)) => {w}
    case _ => {}
  }

  /**
   What leaves the queue leaves the pool with it, but for the process taken and, if a kill raises, the two that are
   dropped.
   */
  ghost predicate Kept(workers: set<Worker>, idle: seq<Idle>, r: Reservation, dropped: set<Worker>) {
    && Queued(r.idle) && Names(r.idle) <= Names(idle)
    && Taken(r) + dropped <= Names(idle) && Taken(r) !! dropped && (Taken(r) + dropped) !! Names(r.idle)
    && r.workers == workers - (Names(idle) - Names(r.idle) - (Taken(r) + dropped))
    && |dropped| == if r.worker.Raised? then 2 else 0
  }

  lemma ReserveKeeps(workers: set<Worker>, idle: seq<Idle>, exited: set<Worker>, raising: set<Worker>, now: int)
    requires Queued(idle) && Names(idle) <= workers
    ensures Kept(workers, idle, Reserve(workers, idle, exited, raising, now), Dropped(idle, exited, raising, now))
  {
    if UpToLive(idle, exited) == [] {
      assert idle[0..] == idle;
    } else {
      var m, k, n := ReserveForm(workers, idle, exited, raising, now);
      KeptAt(workers, idle, m, k, n, Reserve(workers, idle, exited, raising, now), Dropped(idle, exited, raising, now));
    }
  }

  lemma KeptAt(workers: set<Worker>, idle: seq<Idle>, m: nat, k: nat, n: nat, r: Reservation, dropped: set<Worker>)
    requires Queued(idle) && Names(idle) <= workers && m <= k <= m + 1 && k <= n < |idle|
    requires r == Reservation(workers - Names(idle[n + 1..]) - Names(idle[..m]), idle[k..n],
                              if m < k then Raised(NoSuchProcess) else Ok(Some(idle[n].worker)), Workers(idle[..m]))
    requires dropped == if m < k then Names(idle[m..k]) + {idle[n].worker} else {}
    ensures Kept(workers, idle, r, dropped)
  {
    Pieces(idle, m, k, n);
    DroppedOrTaken(idle, m, k, n, r, dropped);
    SetsLeft(workers, Names(idle), Names(idle[..m]), Names(idle[m..k]), Names(idle[k..n]), idle[n].worker,
             Names(idle[n + 1..]), Taken(r) + dropped);
  }

  lemma DroppedOrTaken(idle: seq<Idle>, m: nat, k: nat, n: nat, r: Reservation, dropped: set<Worker>)
    requires m <= k <= m + 1 && k <= n < |idle| && (m < k ==> idle[m].worker != idle[n].worker)
    requires r.worker == if m < k then Raised(NoSuchProcess) else Ok(Some(idle[n].worker))
    requires dropped == if m < k then Names(idle[m..k]) + {idle[n].worker} else {}
    ensures Taken(r) + dropped == Names(idle[m..k]) + {idle[n].worker} && Taken(r) !! dropped
    ensures |dropped| == if m < k then 2 else 0
  {
    StuckNames(idle, m, k);
  }

  lemma StuckNames(idle: seq<Idle>, m: nat, k: nat)
    requires m <= k <= m + 1 && k <= |idle|
    ensures Names(idle[m..k]) == if m < k then {idle[m].worker} else {}
  {
    if m < k {
      assert idle[m..k] == [idle[m]];
      NamesOfOne(idle[m]);
    }
  }

  lemma SetsLeft(all: set<Worker>, queue: set<Worker>, stale: set<Worker>, stuck: set<Worker>, kept: set<Worker>,
                 w: Worker,
                 gone: set<Worker>, out: set<Worker>)
    requires stale !! stuck !! kept !! {w} !! gone && queue == stale + stuck + kept + {w} + gone && out == stuck + {w}
    ensures kept <= queue && out <= queue && out !! kept
    ensures queue <= all ==> all - gone - stale == all - (queue - kept - out)
  {
  }

  /** The killed processes were in the queue, and are neither in the pool nor reserved afterwards. */
  lemma KilledWere(workers: set<Worker>, idle: seq<Idle>, exited: set<Worker>, raising: set<Worker>, now: int)
    requires Queued(idle)
    ensures var r := Reserve(workers, idle, exited, raising, now);
            forall w :: w in r.killed ==> w in Names(idle) && w !in r.workers && w !in Taken(r)
  {
    if UpToLive(idle, exited) != [] {
      var m, k, n := ReserveForm(workers, idle, exited, raising, now);
      Pieces(idle, m, k, n);
      forall w | w in Workers(idle[..m]) ensures w in Names(idle[..m]) {
        var i :| 0 <= i < m && Workers(idle[..m])[i] == w;
        NamesAt(idle[..m], i);
      }
    }
  }

  /** What a call that finds a live process at n does with those queued before it. */
  lemma PrunedWithTaken(workers: set<Worker>, idle: seq<Idle>, exited: set<Worker>, raising: set<Worker>, now: int,
                        n: nat, i: nat)
    requires Queued(idle) && i < n < |idle| && LastLive(idle, exited, n)
    ensures var r := Reserve(workers, idle, exited, raising, now);
            && (idle[i].worker in r.killed <==>
                now - idle[i].since >= 300 && forall j :: 0 <= j <= i ==> idle[j].worker !in raising)
            && (idle[i].worker in Names(r.idle) <==>
                now - idle[i].since < 300 || exists j :: 0 <= j < i && idle[j].worker in raising)
  {
    var rest := idle[..n];
    FrontPruned(workers, idle, exited, raising, now, n);
    QueuedParts(idle, n);
    PrunesExactly(rest, raising, now, i);
    assert forall j :: 0 <= j < n ==> rest[j] == idle[j];
  }

  lemma FrontPruned(workers: set<Worker>, idle: seq<Idle>, exited: set<Worker>, raising: set<Worker>, now: int, n: nat)
    requires n < |idle| && LastLive(idle, exited, n)
    ensures var (r, rest) := (Reserve(workers, idle, exited, raising, now), idle[..n]);
            r.killed == Workers(rest[..Kills(rest, raising, now)]) && r.idle == rest[Cut(rest, raising, now)..]
  {
    LiveIs(idle, exited, n);
    SliceOfFront(idle, n + 1, n);
  }

  /** A kill raises exactly if an overdue process whose kill does is queued before the live process that is taken. */
  lemma RaisesExactly(workers: set<Worker>, idle: seq<Idle>, exited: set<Worker>, raising: set<Worker>, now: int)
    requires Queued(idle)
    ensures Reserve(workers, idle, exited, raising, now).worker.Raised? <==>
            exists i, n :: 0 <= i < n < |idle| && now - idle[i].since >= 300 && idle[i].worker in raising
                           && LastLive(idle, exited, n)
  {
    if n :| 0 <= n < |idle| && LastLive(idle, exited, n) {
      TakesNewestLive(workers, idle, exited, raising, now, n);
      assert forall m :: 0 <= m < |idle| && LastLive(idle, exited, m) ==> m == n;
    } else {
      SomeLive(idle, exited);
    }
  }

  lemma SomeLive(idle: seq<Idle>, exited: set<Worker>)
    ensures UpToLive(idle, exited) != [] ==> LastLive(idle, exited, |UpToLive(idle, exited)| - 1)
  {
    UpToLiveIs(idle, exited);
    var live := UpToLive(idle, exited);
    if live != [] { assert idle[|live| - 1] == live[|live| - 1]; }
  }

  /** The queue left by a reservation is a part of the queue before it; something went out unless it was empty. */
  lemma ReserveShortens(workers: set<Worker>, idle: seq<Idle>, exited: set<Worker>, raising: set<Worker>, now: int)
    ensures var r := Reserve(workers, idle, exited, raising, now);
            && (forall i :: 0 <= i < |r.idle| ==> r.idle[i] in idle)
            && |r.idle| <= |idle| && (r.worker != Ok(None) ==> |r.idle| < |idle|)
               && (r.worker == Ok(None) ==> r.idle == [])
  {
  }

  lemma QueuedMore(idle: seq<Idle>, next: Idle)
    requires Queued(idle) && next.worker !in Names(idle)
    requires idle == [] || idle[|idle| - 1].since <= next.since
    ensures Queued(idle + [next]) && Names(idle + [next]) == Names(idle) + {next.worker}
  {
    var more := idle + [next];
    NamesOfParts(more, |idle|);
    assert more[..|idle|] == idle && more[|idle|..] == [next];
    NamesOfOne(next);
    forall i | 0 <= i < |idle| ensures idle[i].worker != next.worker { NamesAt(idle, i); }
  }

  /** What is still queued is still in the pool, so removing it there does not raise KeyError. */
  lemma StillThere(workers: set<Worker>, idle: seq<Idle>, i: nat)
    requires Queued(idle) && Names(idle) <= workers && i < |idle|
    ensures idle[i].worker in workers - Names(idle[i + 1..])
    ensures idle[i].worker in workers - Names(idle[..i])
  {
    NamesAt(idle, i);
    NamesAt(idle[..i + 1], i);
    NamesAt(idle[i..], 0);
    QueuedParts(idle, i + 1);
    QueuedParts(idle, i);
  }

  lemma Reserved(workers: set<Worker>, idle: seq<Idle>, exited: set<Worker>, raising: set<Worker>, now: int, n: nat,
                 pruned: Reservation)
    requires n < |idle| && UpToLive(idle, exited) == idle[..n + 1]
    requires pruned == Pruned(workers - Names(idle[n + 1..]), idle[..n], raising, now, idle[n].worker)
    ensures pruned == Reserve(workers, idle, exited, raising, now)
  {
    assert idle[..n + 1][..n] == idle[..n];
  }

  /** What the pruning makes of the pool and the queue when w has been taken. */
  function Pruned(workers: set<Worker>, idle: seq<Idle>, raising: set<Worker>, now: int, w: Worker): Reservation {
    var stale := idle[..Kills(idle, raising, now)];
    Reservation(workers - Names(stale), idle[Cut(idle, raising, now)..],
                if Stuck(idle, raising, now) then Raised(NoSuchProcess) else Ok(Some(w)), Workers(stale))
  }

  /** The loop that pops exited processes: what is left of the pool and the queue. */
  ghost predicate Popping(workers0: set<Worker>, idle0: seq<Idle>, exited: set<Worker>, workers: set<Worker>,
                          idle: seq<Idle>) {
    && |idle| <= |idle0| && idle == idle0[..|idle|]
    && Queued(idle) && Names(idle) <= workers && workers == workers0 - Names(idle0[|idle|..])
    && UpToLive(idle, exited) == UpToLive(idle0, exited)
  }

  lemma PoppingStarts(workers: set<Worker>, idle: seq<Idle>, exited: set<Worker>)
    requires Queued(idle) && Names(idle) <= workers
    ensures Popping(workers, idle, exited, workers, idle)
  {
  }

  lemma PoppingGoesOn(workers0: set<Worker>, idle0: seq<Idle>, exited: set<Worker>, workers: set<Worker>,
                      idle: seq<Idle>)
    requires Popping(workers0, idle0, exited, workers, idle) && idle != []
    ensures var (last, left) := (idle[|idle| - 1], idle[..|idle| - 1]);
            && last == idle0[|left|] && left == idle0[..|left|]
            && Queued(left) && Names(left) <= workers && workers == workers0 - Names(idle0[|left| + 1..])
            && (last.worker !in exited ==> UpToLive(idle0, exited) == idle0[..|left| + 1])
            && (last.worker in exited ==> Popping(workers0, idle0, exited, workers - {last.worker}, left))
  {
    var n := |idle| - 1;
    NamesOfNext(idle0, n);
    NamesOfNext(idle, n);
    QueuedParts(idle, n);
    NamesOfParts(idle, n);
    assert idle[..n] == idle0[..n] && idle[..n + 1] == idle && idle[n..] == [idle[n]];
    NamesAt(idle[n..], 0);
  }

  /** The loop that prunes: the killed processes were the first in the queue. */
  ghost predicate Pruning(workers0: set<Worker>, idle0: seq<Idle>, raising: set<Worker>, now: int, workers: set<Worker>,
                          idle: seq<Idle>, killed: seq<Worker>) {
    && |killed| + |idle| == |idle0| && idle == idle0[|killed|..] && killed == Workers(idle0[..|killed|])
    && Queued(idle) && Names(idle) <= workers && workers == workers0 - Names(idle0[..|killed|])
    && Kills(idle0, raising, now) == |killed| + Kills(idle, raising, now)
  }

  lemma PruningStarts(workers: set<Worker>, idle: seq<Idle>, raising: set<Worker>, now: int)
    requires Queued(idle) && Names(idle) <= workers
    ensures Pruning(workers, idle, raising, now, workers, idle, [])
  {
  }

  lemma PruningGoesOn(workers0: set<Worker>, idle0: seq<Idle>, raising: set<Worker>, now: int, workers: set<Worker>,
                      idle: seq<Idle>, killed: seq<Worker>)
    requires Pruning(workers0, idle0, raising, now, workers, idle, killed)
    requires idle != [] && Overdue(idle[0], now) && idle[0].worker !in raising
    ensures Pruning(workers0, idle0, raising, now, workers - {idle[0].worker}, idle[1..], killed + [idle[0].worker])
  {
    var n := |killed|;
    NamesOfNext(idle0, n);
    WithoutFirst(workers, idle);
    assert idle0[n + 1..] == idle[1..];
    assert killed + [idle[0].worker] == Workers(idle0[..n + 1]);
  }

  lemma WithoutFirst(workers: set<Worker>, idle: seq<Idle>)
    requires Queued(idle) && Names(idle) <= workers && idle != []
    ensures Queued(idle[1..]) && Names(idle[1..]) <= workers - {idle[0].worker}
  {
    QueuedParts(idle, 1);
    NamesAt(idle[..1], 0);
  }

  lemma PruningStuck(workers0: set<Worker>, idle0: seq<Idle>, raising: set<Worker>, now: int, workers: set<Worker>,
                     idle: seq<Idle>, killed: seq<Worker>)
    requires Pruning(workers0, idle0, raising, now, workers, idle, killed)
    requires idle != [] && Overdue(idle[0], now) && idle[0].worker in raising
    ensures Stuck(idle0, raising, now) && |killed| == Kills(idle0, raising, now)
    ensures idle[1..] == idle0[Cut(idle0, raising, now)..] && Queued(idle[1..]) && Names(idle[1..]) <= workers
  {
    WithoutFirst(workers, idle);
    assert idle0[|killed|..][1..] == idle0[|killed| + 1..];
  }

  lemma PruningEnds(workers0: set<Worker>, idle0: seq<Idle>, raising: set<Worker>, now: int, workers: set<Worker>,
                    idle: seq<Idle>, killed: seq<Worker>)
    requires Pruning(workers0, idle0, raising, now, workers, idle, killed)
    requires idle == [] || !Overdue(idle[0], now)
    ensures !Stuck(idle0, raising, now) && |killed| == Kills(idle0, raising, now) == Cut(idle0, raising, now)
  {
  }

  /** The pool in one event loop thread. */
  class Pool {
    var workers: set<Worker>
    var idle: seq<Idle>

    ghost predicate Valid()
      reads this
    {
      Queued(idle) && Names(idle) <= workers
    }

    constructor ()
      ensures Valid() && workers == {} && idle == []
    {
      workers, idle := {}, [];
    }

    /** Take the most recently used process that has not exited, if there is one, and prune the queue. */
    method Take(exited: set<Worker>, raising: set<Worker>, now: int)
      returns (worker: Outcome<Option<Worker>>, killed: seq<Worker>)
      requires Valid()
      modifies this
      ensures Valid()
      ensures Reservation(workers, idle, worker, killed) == Reserve(old(workers), old(idle), exited, raising, now)
    {
      PoppingStarts(workers, idle, exited);
      while |idle| > 0
        invariant Popping(old(workers), old(idle), exited, workers, idle)
      {
        PoppingGoesOn(old(workers), old(idle), exited, workers, idle);
        var last := idle[|idle| - 1];
        idle := idle[..|idle| - 1];
        if last.worker !in exited {
          ghost var left := idle;
          var pruned;
          pruned, killed := Prune(raising, now);
          worker := if pruned.Ok? then Ok(Some(last.worker)) else Raised(pruned.error);
          Reserved(old(workers), old(idle), exited, raising, now, |left|, Reservation(workers, idle, worker, killed));
          return;
        }
        workers := workers - {last.worker};
      }
      return Ok(None), [];
    }

    /**
     Kill the processes at the left end of the queue that have been idle for the limit or longer. A kill that raises
     ends it: that process has left the queue, but not the pool.
     */
    method Prune(raising: set<Worker>, now: int) returns (pruned: Outcome<()>, killed: seq<Worker>)
      requires Valid()
      modifies this
      ensures Valid()
      ensures pruned == if Stuck(old(idle), raising, now) then Raised(NoSuchProcess) else Ok(())
      ensures killed == Workers(old(idle)[..Kills(old(idle), raising, now)])
      ensures idle == old(idle)[Cut(old(idle), raising, now)..]
      ensures workers == old(workers) - Names(old(idle)[..Kills(old(idle), raising, now)])
    {
      killed := [];
      PruningStarts(workers, idle, raising, now);
      while |idle| > 0
        invariant Pruning(old(workers), old(idle), raising, now, workers, idle, killed)
      {
        if now - idle[0].since < WORKER_MAX_IDLE_TIME { break; }
        ghost var queue := idle;
        var first := idle[0];
        idle := idle[1..];
        if first.worker in raising {
          PruningStuck(old(workers), old(idle), raising, now, workers, queue, killed);
          return Raised(NoSuchProcess), killed;
        }
        PruningGoesOn(old(workers), old(idle), raising, now, workers, queue, killed);
        workers := workers - {first.worker};
        killed := killed + [first.worker];
      }
      PruningEnds(old(workers), old(idle), raising, now, workers, idle, killed);
      pruned := Ok(());
    }

    method Add(worker: Worker)
      requires Valid()
      modifies this
      ensures Valid() && workers == old(workers) + {worker} && idle == old(idle)
    {
      workers := workers + {worker};
    }

    method Discard(worker: Worker)
      requires Valid() && worker !in Names(idle)
      modifies this
      ensures Valid() && workers == old(workers) - {worker} && idle == old(idle)
    {
      workers := workers - {worker};
    }

    /** The end of a command: a process that is still in the pool becomes idle. */
    method Return(worker: Worker, now: int)
      requires Valid() && worker !in Names(idle)
      requires idle == [] || idle[|idle| - 1].since <= now
      modifies this
      ensures Valid() && workers == old(workers)
      ensures idle == if worker in workers then old(idle) + [Idle(worker, now)] else old(idle)
    {
      if worker in workers {
        QueuedMore(idle, Idle(worker, now));
        idle := idle + [Idle(worker, now)];
      }
    }
  }
}
