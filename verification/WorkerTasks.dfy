/** Tasks that use the worker pool concurrently: a task runs without interruption from one await to the next. */
module WorkerTasks {
  import opened Collections
  import opened Outcomes
  import opened WorkerPool

  type Task = nat

  datatype Phase = Starting(worker: Worker) | Running(worker: Worker) | Over

  /** tokens is the limit on concurrent calls; killed are the pruned processes and next is a process not yet started. */
  datatype State = State(
    tokens: nat,
    workers: set<Worker>, idle: seq<Idle>,
    exited: set<Worker>, killed: set<Worker>,
    calls: map<Task, Phase>, next: Worker, now: int)

  function Init(tokens: nat): State {
    State(tokens, {}, [], {}, {}, map[], 0, 0)
  }

  /**
   A task gets a token and reserves a process, where a kill of one of the raising processes raises; a started process
   becomes ready or not; a command ends with an answer or breaks the process; a process exits by itself; time passes.
   */
  datatype Event =
    | Call(t: Task, raising: set<Worker>)
    | Ready(t: Task)
    | NotReady(t: Task)
    | Answer(t: Task)
    | Break(t: Task)
    | Exit(worker: Worker)
    | Wait(seconds: nat)

  function InFlight(s: State): set<Task> {
    set t | t in s.calls && !s.calls[t].Over?
  }

  /** The processes that run a command. */
  function Busy(s: State): set<Worker> {
    set t | t in s.calls && s.calls[t].Running? :: s.calls[t].worker
  }

  /** The processes of the pool that no task holds and that are not in the queue. */
  function Forgotten(s: State): set<Worker> {
    s.workers - Names(s.idle) - Busy(s)
  }

  function Reserving(s: State, raising: set<Worker>): Reservation {
    Reserve(s.workers, s.idle, s.exited, raising, s.now)
  }

  /** Where the reservation leaves the task: a kill that raises ends the call. */
  function Given(s: State, r: Reservation): Phase {
    match r.worker
    case Ok(Some(w)) => Running(w)
    case Ok(None) => Starting(s.next)
    case Raised(_) => Over
  }

  function Begin(s: State, t: Task, raising: set<Worker>): State {
    var r := Reserving(s, raising);
    var s1 := s.(workers := r.workers, idle := r.idle, killed := s.killed + set w | w in r.killed);
    s1.(calls := s.calls[t := Given(s, r)], next := if r.worker == Ok(None) then s.next + 1 else s.next)
  }

  function Step(s: State, e: Event): Option<State> {
    match e
    case Call(t, raising) => if t in s.calls || |InFlight(s)| >= s.tokens then None else Some(Begin(s, t, raising))
    case Ready(t) =>
      if t in s.calls && s.calls[t].Starting?
      then Some(s.(workers := s.workers + {s.calls[t].worker}, calls := s.calls[t := Running(s.calls[t].worker)]))
      else None
    case NotReady(t) =>
      if t in s.calls && s.calls[t].Starting?
      then Some(s.(workers := s.workers - {s.calls[t].worker}, calls := s.calls[t := Over]))
      else None
    case Answer(t) =>
      if t in s.calls && s.calls[t].Running?
      then Some(s.(idle := if s.calls[t].worker in s.workers then s.idle + [Idle(s.calls[t].worker, s.now)] else s.idle,
                   calls := s.calls[t := Over]))
      else None
    case Break(t) =>
      if t in s.calls && s.calls[t].Running?
      then Some(s.(workers := s.workers - {s.calls[t].worker}, calls := s.calls[t := Over]))
      else None
    case Exit(w) => Some(s.(exited := s.exited + {w}))
    case Wait(seconds) => Some(s.(now := s.now + seconds))
  }

  function Run(s: State, es: seq<Event>): Option<State>
    decreases |es|
  {
    if es == [] then Some(s)
    else if Step(s, es[0]).None? then None
    else Run(Step(s, es[0]).value, es[1..])
  }

  // ----- the invariant --------------------------------------------------------------------------

  ghost predicate QueueOk(s: State) {
    && Queued(s.idle)
    && (forall i :: 0 <= i < |s.idle| ==> s.idle[i].since <= s.now)
  }

  /** No process is with two tasks, and one that is with a task is not in the queue. */
  ghost predicate HeldOk(s: State) {
    && (forall t, t' :: t in s.calls && t' in s.calls && t != t' && !s.calls[t].Over? && !s.calls[t'].Over? ==>
          s.calls[t].worker != s.calls[t'].worker)
    && (forall t :: t in s.calls && !s.calls[t].Over? ==>
          s.calls[t].worker < s.next && s.calls[t].worker !in s.killed && s.calls[t].worker !in Names(s.idle))
    && (forall t :: t in s.calls && s.calls[t].Starting? ==> s.calls[t].worker !in s.workers)
  }

  /** The idle and the busy processes are in the pool, and the killed ones are not. */
  ghost predicate PoolOk(s: State) {
    && Names(s.idle) + Busy(s) <= s.workers
    && s.killed !! s.workers
    && (forall w :: w in s.workers || w in s.killed ==> w < s.next)
  }

  ghost predicate Inv(s: State) {
    && QueueOk(s) && HeldOk(s) && PoolOk(s)
    && |s.idle| + |InFlight(s)| <= s.tokens
  }

  lemma BusySet(s: State, t: Task, p: Phase)
    requires HeldOk(s)
    ensures var s' := s.(calls := s.calls[t := p]);
            Busy(s') == Busy(s) - (if t in s.calls && s.calls[t].Running? then {s.calls[t].worker} else {})
                        + (if p.Running? then {p.worker} else {})
  {
    var s' := s.(calls := s.calls[t := p]);
    forall w | w in Busy(s) && !(t in s.calls && s.calls[t].Running? && s.calls[t].worker == w) ensures w in Busy(s') {
      var u :| u in s.calls && s.calls[u].Running? && s.calls[u].worker == w;
      assert u in s'.calls && s'.calls[u] == s.calls[u];
    }
    if p.Running? { assert t in s'.calls && s'.calls[t].worker == p.worker; }
  }

  lemma InFlightSet(s: State, t: Task, p: Phase)
    ensures var s' := s.(calls := s.calls[t := p]);
            InFlight(s') == if p.Over? then InFlight(s) - {t} else InFlight(s) + {t}
  {
  }

  lemma BeginQueue(s: State, t: Task, raising: set<Worker>)
    requires Inv(s) && t !in s.calls && |InFlight(s)| < s.tokens
    ensures QueueOk(Begin(s, t, raising))
  {
    ReserveKeeps(s.workers, s.idle, s.exited, raising, s.now);
    ReserveShortens(s.workers, s.idle, s.exited, raising, s.now);
  }

  lemma BeginTokens(s: State, t: Task, raising: set<Worker>)
    requires Inv(s) && t !in s.calls && |InFlight(s)| < s.tokens
    ensures |Begin(s, t, raising).idle| + |InFlight(Begin(s, t, raising))| <= s.tokens
  {
    var r := Reserving(s, raising);
    ReserveShortens(s.workers, s.idle, s.exited, raising, s.now);
    InFlightSet(s, t, Given(s, r));
    assert t !in InFlight(s);
    assert InFlight(Begin(s, t, raising)) == if r.worker.Raised? then InFlight(s) else InFlight(s) + {t};
  }

  lemma BeginHeld(s: State, t: Task, raising: set<Worker>)
    requires Inv(s) && t !in s.calls
    ensures HeldOk(Begin(s, t, raising))
  {
    var r := Reserving(s, raising);
    ReserveKeeps(s.workers, s.idle, s.exited, raising, s.now);
    KilledWere(s.workers, s.idle, s.exited, raising, s.now);
    var s' := Begin(s, t, raising);
    assert s'.calls == s.calls[t := Given(s, r)];
    assert Names(s.idle) <= s.workers;
    forall u | u in s'.calls && !s'.calls[u].Over?
      ensures s'.calls[u].worker < s'.next && s'.calls[u].worker !in s'.killed && s'.calls[u].worker !in Names(s'.idle)
    {
      if u != t { assert s'.calls[u] == s.calls[u]; }
    }
  }

  lemma BusyBegin(s: State, t: Task, raising: set<Worker>)
    requires HeldOk(s) && t !in s.calls
    ensures Busy(Begin(s, t, raising)) == Busy(s) + Taken(Reserving(s, raising))
  {
    var p := Given(s, Reserving(s, raising));
    BusySet(s, t, p);
    assert Begin(s, t, raising).calls == s.calls[t := p];
    assert Busy(Begin(s, t, raising)) == Busy(s.(calls := s.calls[t := p]));
  }

  function DroppedBy(s: State, raising: set<Worker>): set<Worker> {
    Dropped(s.idle, s.exited, raising, s.now)
  }

  /** A call forgets the processes it drops, and no others; it remembers none that was forgotten. */
  lemma BeginForgets(s: State, t: Task, raising: set<Worker>)
    requires Inv(s) && t !in s.calls
    ensures var s' := Begin(s, t, raising);
            && Names(s'.idle) + Busy(s') <= s'.workers
            && Forgotten(s') == Forgotten(s) + DroppedBy(s, raising) && Forgotten(s) !! DroppedBy(s, raising)
            && |DroppedBy(s, raising)| == if Reserving(s, raising).worker.Raised? then 2 else 0
  {
    var r := Reserving(s, raising);
    BusyBegin(s, t, raising);
    BusyApart(s);
    ReserveKeeps(s.workers, s.idle, s.exited, raising, s.now);
    PoolLeft(s.workers, r.workers, Names(s.idle), Names(r.idle), Busy(s), Taken(r), DroppedBy(s, raising));
  }

  lemma BeginKilled(s: State, t: Task, raising: set<Worker>)
    requires Inv(s) && t !in s.calls
    ensures Begin(s, t, raising).killed !! Begin(s, t, raising).workers
    ensures forall w :: w in Begin(s, t, raising).workers || w in Begin(s, t, raising).killed ==>
                          w < Begin(s, t, raising).next
  {
    var r := Reserving(s, raising);
    ReserveKeeps(s.workers, s.idle, s.exited, raising, s.now);
    KilledWere(s.workers, s.idle, s.exited, raising, s.now);
    assert r.workers <= s.workers && Names(s.idle) <= s.workers;
    var s' := Begin(s, t, raising);
    assert s'.workers == r.workers && s'.killed == s.killed + set w | w in r.killed;
  }

  lemma BusyApart(s: State)
    requires HeldOk(s)
    ensures Busy(s) !! Names(s.idle)
  {
  }

  lemma PoolLeft(all: set<Worker>, all': set<Worker>, queue: set<Worker>, left: set<Worker>, busy: set<Worker>,
                 taken: set<Worker>, dropped: set<Worker>)
    requires queue + busy <= all && queue !! busy && left <= queue && taken + dropped <= queue
    requires taken !! dropped && (taken + dropped) !! left && all' == all - (queue - left - (taken + dropped))
    ensures left + (busy + taken) <= all'
    ensures all' - left - (busy + taken) == (all - queue - busy) + dropped && (all - queue - busy) !! dropped
  {
  }

  lemma AnswerInv(s: State, t: Task)
    requires Inv(s) && t in s.calls && s.calls[t].Running?
    ensures Inv(Step(s, Answer(t)).value)
  {
    AnswerQueue(s, t);
    AnswerPool(s, t);
    AnswerHeld(s, t);
  }

  lemma AnswerQueue(s: State, t: Task)
    requires Inv(s) && t in s.calls && s.calls[t].Running?
    ensures var s' := Step(s, Answer(t)).value; QueueOk(s') && |s'.idle| + |InFlight(s')| <= s'.tokens
  {
    var s' := Step(s, Answer(t)).value;
    AnswerIs(s, t);
    InFlightSet(s, t, Over);
    assert t in InFlight(s) && InFlight(s') == InFlight(s) - {t};
    QueuedMore(s.idle, Idle(s.calls[t].worker, s.now));
  }

  lemma AnswerPool(s: State, t: Task)
    requires Inv(s) && t in s.calls && s.calls[t].Running?
    ensures PoolOk(Step(s, Answer(t)).value)
  {
    var w, s' := s.calls[t].worker, Step(s, Answer(t)).value;
    AnswerIs(s, t);
    BusySet(s, t, Over);
    assert w in Busy(s) && Busy(s') == Busy(s) - {w};
    QueuedMore(s.idle, Idle(w, s.now));
  }

  lemma AnswerIs(s: State, t: Task)
    requires Inv(s) && t in s.calls && s.calls[t].Running?
    ensures Step(s, Answer(t)).value ==
            s.(idle := s.idle + [Idle(s.calls[t].worker, s.now)], calls := s.calls[t := Over])
  {
    assert s.calls[t].worker in Busy(s);
  }

  lemma AnswerHeld(s: State, t: Task)
    requires Inv(s) && t in s.calls && s.calls[t].Running?
    ensures HeldOk(Step(s, Answer(t)).value)
  {
    AnswerIs(s, t);
    QueuedMore(s.idle, Idle(s.calls[t].worker, s.now));
  }

  lemma NotReadyInv(s: State, t: Task)
    requires Inv(s) && t in s.calls && s.calls[t].Starting?
    ensures Inv(Step(s, NotReady(t)).value)
  {
    InFlightSet(s, t, Over);
    BusySet(s, t, Over);
    assert t in InFlight(s);
  }

  lemma BreakInv(s: State, t: Task)
    requires Inv(s) && t in s.calls && s.calls[t].Running?
    ensures Inv(Step(s, Break(t)).value)
  {
    InFlightSet(s, t, Over);
    BusySet(s, t, Over);
    assert t in InFlight(s);
  }

  lemma ReadyInv(s: State, t: Task)
    requires Inv(s) && t in s.calls && s.calls[t].Starting?
    ensures Inv(Step(s, Ready(t)).value)
  {
    var w, s' := s.calls[t].worker, Step(s, Ready(t)).value;
    InFlightSet(s, t, Running(w));
    BusySet(s, t, Running(w));
    assert t in InFlight(s);
    assert InFlight(s') == InFlight(s.(calls := s'.calls)) == InFlight(s);
    assert Busy(s') == Busy(s.(calls := s'.calls)) == Busy(s) + {w};
    ReadyHeld(s, t);
  }

  lemma ReadyHeld(s: State, t: Task)
    requires Inv(s) && t in s.calls && s.calls[t].Starting?
    ensures HeldOk(Step(s, Ready(t)).value)
  {
    var s' := Step(s, Ready(t)).value;
    forall u | u in s'.calls && u != t && !s'.calls[u].Over? ensures s'.calls[u].worker != s'.calls[t].worker {
      assert s'.calls[u] == s.calls[u];
    }
  }

  lemma BeginInv(s: State, t: Task, raising: set<Worker>)
    requires Inv(s) && t !in s.calls && |InFlight(s)| < s.tokens
    ensures Inv(Begin(s, t, raising))
  {
    BeginQueue(s, t, raising);
    BeginTokens(s, t, raising);
    BeginHeld(s, t, raising);
    BeginForgets(s, t, raising);
    BeginKilled(s, t, raising);
  }

  lemma StepInv(s: State, e: Event)
    requires Inv(s) && Step(s, e).Some?
    ensures Inv(Step(s, e).value)
  {
    match e
    case Call(t, raising) => BeginInv(s, t, raising);
    case Ready(t) => ReadyInv(s, t);
    case NotReady(t) => NotReadyInv(s, t);
    case Answer(t) => AnswerInv(s, t);
    case Break(t) => BreakInv(s, t);
    case Exit(w) => ExitInv(s, w);
    case Wait(seconds) => WaitInv(s, seconds);
  }

  lemma ExitInv(s: State, w: Worker)
    requires Inv(s)
    ensures Inv(Step(s, Exit(w)).value)
  {
    OutsideInv(s, Step(s, Exit(w)).value);
  }

  lemma WaitInv(s: State, seconds: nat)
    requires Inv(s)
    ensures Inv(Step(s, Wait(seconds)).value)
  {
    OutsideInv(s, Step(s, Wait(seconds)).value);
  }

  lemma OutsideInv(s: State, s': State)
    requires Inv(s) && s'.tokens == s.tokens && s'.workers == s.workers && s'.idle == s.idle && s'.killed == s.killed
    requires s'.calls == s.calls && s'.next == s.next && s.now <= s'.now
    ensures Inv(s')
  {
    assert InFlight(s') == InFlight(s) && Busy(s') == Busy(s);
  }

  lemma {:induction false} RunInv(s: State, es: seq<Event>)
    requires Inv(s) && Run(s, es).Some?
    ensures Inv(Run(s, es).value)
    decreases |es|
  {
    if es != [] {
      StepInv(s, es[0]);
      RunInv(Step(s, es[0]).value, es[1..]);
    }
  }

  // ----- what a run forgets ---------------------------------------------------------------------

  /** A call finds a live process to take, and queued before it an overdue one whose kill raises. */
  ghost predicate Loses(s: State, e: Event) {
    e.Call? &&
    exists i, n :: 0 <= i < n < |s.idle| && s.now - s.idle[i].since >= 300 && s.idle[i].worker in e.raising
                   && LastLive(s.idle, s.exited, n)
  }

  /** How many calls of a run do. */
  ghost function Losses(s: State, es: seq<Event>): nat
    requires Run(s, es).Some?
    decreases |es|
  {
    if es == [] then 0 else (if Loses(s, es[0]) then 1 else 0) + Losses(Step(s, es[0]).value, es[1..])
  }

  lemma StepForgets(s: State, e: Event)
    requires Inv(s) && Step(s, e).Some?
    ensures var s' := Step(s, e).value;
            && Forgotten(s) <= Forgotten(s')
            && |Forgotten(s')| == |Forgotten(s)| + if Loses(s, e) then 2 else 0
  {
    if e.Call? {
      BeginForgets(s, e.t, e.raising);
      RaisesExactly(s.workers, s.idle, s.exited, e.raising, s.now);
    } else {
      OthersForgetNone(s, e);
    }
  }

  lemma OthersForgetNone(s: State, e: Event)
    requires Inv(s) && Step(s, e).Some? && !e.Call?
    ensures Forgotten(Step(s, e).value) == Forgotten(s)
  {
    var s' := Step(s, e).value;
    match e
    case Ready(t) =>
      BusySet(s, t, Running(s.calls[t].worker));
      assert Busy(s') == Busy(s.(calls := s'.calls));
    case NotReady(t) => BusySet(s, t, Over);
    case Answer(t) =>
      AnswerIs(s, t);
      BusySet(s, t, Over);
      assert s.calls[t].worker in Busy(s) && Busy(s') == Busy(s) - {s.calls[t].worker};
      QueuedMore(s.idle, Idle(s.calls[t].worker, s.now));
    case Break(t) =>
      BusySet(s, t, Over);
      assert s.calls[t].worker in Busy(s) && Busy(s') == Busy(s) - {s.calls[t].worker};
    case Exit(_) | Wait(_) => assert Busy(s') == Busy(s);
  }

  lemma {:induction false} RunForgets(s: State, es: seq<Event>)
    requires Inv(s) && Run(s, es).Some?
    ensures var s' := Run(s, es).value;
            Forgotten(s) <= Forgotten(s') && |Forgotten(s')| == |Forgotten(s)| + 2 * Losses(s, es)
    decreases |es|
  {
    if es != [] {
      StepInv(s, es[0]);
      StepForgets(s, es[0]);
      RunForgets(Step(s, es[0]).value, es[1..]);
    }
  }

  // ----- what holds in every interleaving -------------------------------------------------------

  lemma Reached(tokens: nat, es: seq<Event>)
    requires Run(Init(tokens), es).Some?
    ensures Inv(Run(Init(tokens), es).value)
  {
    RunInv(Init(tokens), es);
  }

  /** No two tasks hold one process, and a held process is neither idle nor one that was killed. */
  lemma NeverShared(tokens: nat, es: seq<Event>, t: Task, t': Task)
    requires Run(Init(tokens), es).Some?
    requires var s := Run(Init(tokens), es).value;
             t in InFlight(s) && t' in InFlight(s) && t != t'
    ensures var s := Run(Init(tokens), es).value;
            && s.calls[t].worker != s.calls[t'].worker
            && s.calls[t].worker !in Names(s.idle) && s.calls[t].worker !in s.killed
  {
    Reached(tokens, es);
  }

  /**
   The idle and the busy processes are in the pool, and the killed ones are not. The pool has no others exactly if no
   call of the run has lost any; each loses two.
   */
  lemma NoneForgotten(tokens: nat, es: seq<Event>)
    requires Run(Init(tokens), es).Some?
    ensures var s := Run(Init(tokens), es).value;
            && Names(s.idle) + Busy(s) <= s.workers && Names(s.idle) !! Busy(s) && s.killed !! s.workers
            && (s.workers == Names(s.idle) + Busy(s) <==> Losses(Init(tokens), es) == 0)
            && |s.workers - Names(s.idle) - Busy(s)| == 2 * Losses(Init(tokens), es)
  {
    Reached(tokens, es);
    var s := Run(Init(tokens), es).value;
    BusyApart(s);
    InitInv(tokens);
    RunForgets(Init(tokens), es);
    assert Forgotten(Init(tokens)) == {};
    assert Forgotten(s) == {} <==> |Forgotten(s)| == 0;
  }

  lemma InitInv(tokens: nat)
    ensures Inv(Init(tokens))
  {
  }

  /** A process that is forgotten stays so: it stays in the pool, and no task ever gets, queues or kills it. */
  lemma ForgottenForGood(tokens: nat, es: seq<Event>, more: seq<Event>, w: Worker)
    requires Run(Init(tokens), es).Some? && Run(Run(Init(tokens), es).value, more).Some?
    requires w in Forgotten(Run(Init(tokens), es).value)
    ensures var s := Run(Run(Init(tokens), es).value, more).value;
            && w in s.workers && w !in Names(s.idle) && w !in s.killed
            && forall t :: t in InFlight(s) ==> s.calls[t].worker != w
  {
    Reached(tokens, es);
    var s0 := Run(Init(tokens), es).value;
    RunForgets(s0, more);
    RunInv(s0, more);
    var s := Run(s0, more).value;
    forall t | t in InFlight(s) ensures s.calls[t].worker != w {
      if s.calls[t].Running? { assert s.calls[t].worker in Busy(s); }
    }
  }

  /**
   What a call that finds a live process at n does with those queued before it: the overdue ones are killed up to the
   first whose kill raises, and the others stay, with those behind that one.
   */
  lemma KillsOverdue(tokens: nat, es: seq<Event>, raising: set<Worker>, n: nat, i: nat)
    requires Run(Init(tokens), es).Some?
    requires var s := Run(Init(tokens), es).value;
             i < n < |s.idle| && LastLive(s.idle, s.exited, n)
    ensures var s := Run(Init(tokens), es).value;
            var r := Reserving(s, raising);
            && (s.idle[i].worker in r.killed <==>
                s.now - s.idle[i].since >= 300 && forall j :: 0 <= j <= i ==> s.idle[j].worker !in raising)
            && (s.idle[i].worker in Names(r.idle) <==>
                s.now - s.idle[i].since < 300 || exists j :: 0 <= j < i && s.idle[j].worker in raising)
  {
    Reached(tokens, es);
    var s := Run(Init(tokens), es).value;
    PrunedWithTaken(s.workers, s.idle, s.exited, raising, s.now, n, i);
  }

  lemma {:induction false} FewNames(idle: seq<Idle>)
    ensures |Names(idle)| <= |idle|
  {
    if idle != [] {
      var n := |idle| - 1;
      FewNames(idle[..n]);
      NamesOfNext(idle, n);
      assert idle[..n + 1] == idle;
    }
  }

  function WorkersOf(calls: map<Task, Phase>, ts: set<Task>): set<Worker>
    requires forall t :: t in ts ==> t in calls && calls[t].Running?
  {
    set t | t in ts :: calls[t].worker
  }

  lemma {:induction false} FewWorkers(calls: map<Task, Phase>, ts: set<Task>)
    requires forall t :: t in ts ==> t in calls && calls[t].Running?
    ensures |WorkersOf(calls, ts)| <= |ts|
    decreases |ts|
  {
    if ts != {} {
      var t :| t in ts;
      FewWorkers(calls, ts - {t});
      assert WorkersOf(calls, ts) == WorkersOf(calls, ts - {t}) + {calls[t].worker};
    } else {
      assert WorkersOf(calls, ts) == {};
    }
  }

  lemma FewBusy(s: State)
    ensures |Busy(s)| <= |InFlight(s)|
  {
    var running := set t | t in s.calls && s.calls[t].Running?;
    FewWorkers(s.calls, running);
    assert Busy(s) == WorkersOf(s.calls, running);
    FewerMembers(running, InFlight(s));
  }

  /**
   However calls, failures and exits interleave, the pool never holds more processes than calls may run at once, but
   for two more for each call that has lost its process.
   */
  lemma PoolBounded(tokens: nat, es: seq<Event>)
    requires Run(Init(tokens), es).Some?
    ensures |Run(Init(tokens), es).value.workers| <= tokens + 2 * Losses(Init(tokens), es)
  {
    Reached(tokens, es);
    TokensKept(Init(tokens), es);
    InvBounded(Run(Init(tokens), es).value);
    NoneForgotten(tokens, es);
  }

  lemma InvBounded(s: State)
    requires Inv(s)
    ensures |s.workers| <= s.tokens + |Forgotten(s)|
  {
    FewNames(s.idle);
    FewBusy(s);
    assert s.workers == Names(s.idle) + Busy(s) + Forgotten(s);
  }

  lemma {:induction false} TokensKept(s: State, es: seq<Event>)
    requires Run(s, es).Some?
    ensures Run(s, es).value.tokens == s.tokens
    decreases |es|
  {
    if es != [] { TokensKept(Step(s, es[0]).value, es[1..]); }
  }

  // ----- the bound is reached -------------------------------------------------------------------

  /** With one token there are never two processes in the queue, so none is lost. */
  lemma OneToken(tokens: nat, es: seq<Event>)
    requires tokens <= 1 && Run(Init(tokens), es).Some?
    ensures Losses(Init(tokens), es) == 0
  {
    InitInv(tokens);
    FewTokens(Init(tokens), es);
  }

  lemma {:induction false} FewTokens(s: State, es: seq<Event>)
    requires Inv(s) && s.tokens <= 1 && Run(s, es).Some?
    ensures Losses(s, es) == 0
    decreases |es|
  {
    if es != [] {
      StepInv(s, es[0]);
      FewTokens(Step(s, es[0]).value, es[1..]);
    }
  }

  lemma {:induction false} RunOn(s: State, es: seq<Event>, more: seq<Event>)
    requires Run(s, es).Some? && Run(Run(s, es).value, more).Some?
    ensures Run(s, es + more) == Run(Run(s, es).value, more)
    ensures Losses(s, es + more) == Losses(s, es) + Losses(Run(s, es).value, more)
    decreases |es|
  {
    if es == [] {
      assert es + more == more;
    } else {
      assert (es + more)[0] == es[0] && (es + more)[1..] == es[1..] + more;
      RunOn(Step(s, es[0]).value, es[1..], more);
    }
  }

  lemma RunOne(s: State, e: Event)
    requires Step(s, e).Some?
    ensures Run(s, [e]) == Step(s, e) && Losses(s, [e]) == if Loses(s, e) then 1 else 0
  {
    assert [e][1..] == [];
  }

  /** With no process in the queue a call starts one. */
  lemma Starts(s: State, t: Task) returns (es: seq<Event>)
    requires s.idle == [] && t !in s.calls && |InFlight(s)| < s.tokens
    ensures Run(s, es) ==
              Some(s.(workers := s.workers + {s.next}, calls := s.calls[t := Running(s.next)], next := s.next + 1))
    ensures Losses(s, es) == 0
  {
    es := [Call(t, {}), Ready(t)];
    var s1 := s.(calls := s.calls[t := Starting(s.next)], next := s.next + 1);
    assert Reserving(s, {}) == Reservation(s.workers, [], Ok(None), []);
    assert s.killed + (set w | w in Reserving(s, {}).killed) == s.killed;
    assert Step(s, Call(t, {})) == Some(s1);
    RunOne(s, Call(t, {}));
    RunOne(s1, Ready(t));
    assert s1.calls[t := Running(s.next)] == s.calls[t := Running(s.next)];
    RunOn(s, [Call(t, {})], [Ready(t)]);
  }

  /** Nothing in the queue, no call in flight, and the tasks from u on are still to come. */
  ghost predicate Quiet(s: State, u: Task) {
    && s.idle == [] && InFlight(s) == {} && s.tokens >= 2
    && (forall t :: t in s.calls ==> t < u)
    && (forall w :: w in s.workers || w in s.exited ==> w < s.next)
  }

  /** Two calls at once, both processes idle, the first overdue and exited: the next call loses both. */
  lemma LosesTwo(s: State, u: Task) returns (es: seq<Event>, s': State)
    requires Quiet(s, u)
    ensures Run(s, es) == Some(s') && Losses(s, es) == 1
    ensures Quiet(s', u + 3) && s'.workers == s.workers + {s.next, s.next + 1} && s'.next == s.next + 2
    ensures s'.exited == s.exited + {s.next} && s'.tokens == s.tokens
  {
    var before, s1 := TwoIdle(s, u);
    var e := Call(u + 2, {s.next});
    s' := Begin(s1, u + 2, {s.next});
    LosesLast(s1, e);
    RunOne(s1, e);
    RunOn(s, before, [e]);
    es := before + [e];
    InFlightSet(s1, u + 2, Over);
  }

  lemma LosesLast(s: State, e: Event)
    requires e.Call? && |s.idle| == 2 && s.idle[0].worker in e.raising && Overdue(s.idle[0], s.now)
    requires s.idle[1].worker !in s.exited
    ensures Loses(s, e)
    ensures Reserving(s, e.raising) == Reservation(s.workers, [], Raised(NoSuchProcess), [])
  {
    assert LastLive(s.idle, s.exited, 1);
    var rest := s.idle[..1];
    assert UpToLive(s.idle, s.exited) == s.idle && Kills(rest, e.raising, s.now) == 0;
    assert s.idle[2..] == [] && rest[1..] == [] && rest[..0] == [];
  }

  lemma TwoIdle(s: State, u: Task) returns (es: seq<Event>, s': State)
    requires Quiet(s, u)
    ensures Run(s, es) == Some(s') && Losses(s, es) == 0
    ensures s' == s.(workers := s.workers + {s.next, s.next + 1}, next := s.next + 2,
                     idle := [Idle(s.next, s.now), Idle(s.next + 1, s.now + WORKER_MAX_IDLE_TIME)],
                     calls := s.calls[u := Over][u + 1 := Over], exited := s.exited + {s.next},
                     now := s.now + WORKER_MAX_IDLE_TIME)
    ensures InFlight(s') == {}
  {
    var es1, s1 := TwoRunning(s, u);
    var w := s.next;
    var s2 := s1.(idle := [Idle(w, s.now)], calls := s1.calls[u := Over]);
    var s3 := s2.(now := s.now + WORKER_MAX_IDLE_TIME);
    var s4 := s3.(idle := s2.idle + [Idle(w + 1, s3.now)], calls := s2.calls[u + 1 := Over]);
    s' := s4.(exited := s.exited + {w});
    var es2 := [Answer(u), Wait(WORKER_MAX_IDLE_TIME), Answer(u + 1), Exit(w)];
    assert s1.idle + [Idle(w, s.now)] == [Idle(w, s.now)] && s1.calls[u] == Running(w) && w in s1.workers;
    assert Step(s1, es2[0]) == Some(s2) && Step(s2, es2[1]) == Some(s3);
    assert Step(s3, es2[2]) == Some(s4) && Step(s4, es2[3]) == Some(s');
    FourSteps(s1, s2, s3, s4, s', es2);
    RunOn(s, es1, es2);
    es := es1 + es2;
    assert s'.calls == s.calls[u := Over][u + 1 := Over];
  }

  lemma FourSteps(s1: State, s2: State, s3: State, s4: State, s5: State, es: seq<Event>)
    requires |es| == 4 && forall i :: 0 <= i < 4 ==> !es[i].Call?
    requires Step(s1, es[0]) == Some(s2) && Step(s2, es[1]) == Some(s3)
    requires Step(s3, es[2]) == Some(s4) && Step(s4, es[3]) == Some(s5)
    ensures Run(s1, es) == Some(s5) && Losses(s1, es) == 0
  {
    assert Run(s4, es[1..][1..][1..]) == Some(s5) && Losses(s4, es[1..][1..][1..]) == 0;
    assert Run(s3, es[1..][1..]) == Some(s5) && Losses(s3, es[1..][1..]) == 0;
    assert Run(s2, es[1..]) == Some(s5) && Losses(s2, es[1..]) == 0;
  }

  lemma TwoRunning(s: State, u: Task) returns (es: seq<Event>, s': State)
    requires Quiet(s, u)
    ensures Run(s, es) == Some(s') && Losses(s, es) == 0
    ensures s' == s.(workers := s.workers + {s.next, s.next + 1}, next := s.next + 2,
                     calls := s.calls[u := Running(s.next)][u + 1 := Running(s.next + 1)])
  {
    var es1 := Starts(s, u);
    var s1 := Run(s, es1).value;
    InFlightSet(s, u, Running(s.next));
    assert InFlight(s1) == {u};
    var es2 := Starts(s1, u + 1);
    s' := Run(s1, es2).value;
    RunOn(s, es1, es2);
    es := es1 + es2;
    assert s'.workers == s.workers + {s.next, s.next + 1};
  }

  /** The run with two tokens that loses a live process: nobody holds it, and it is not in the queue. */
  lemma LiveProcessLost() returns (es: seq<Event>)
    ensures Run(Init(2), es).Some?
    ensures var s := Run(Init(2), es).value;
            s.workers == {0, 1} && s.idle == [] && InFlight(s) == {} && s.exited == {0}
  {
    var s';
    es, s' := LosesTwo(Init(2), 0);
  }

  /** With two tokens or more, calls can lose their processes again and again: the bound on the pool is reached. */
  lemma PoolGrows(tokens: nat, losses: nat) returns (es: seq<Event>)
    requires tokens >= 2
    ensures Run(Init(tokens), es).Some? && Losses(Init(tokens), es) == losses
    ensures |Run(Init(tokens), es).value.workers| == tokens + 2 * losses
  {
    var es1, s1 := LosesMany(tokens, losses);
    var es2 := StartsMany(s1, 3 * losses, tokens);
    RunOn(Init(tokens), es1, es2);
    es := es1 + es2;
  }

  lemma {:induction false} LosesMany(tokens: nat, losses: nat) returns (es: seq<Event>, s: State)
    requires tokens >= 2
    ensures Run(Init(tokens), es) == Some(s) && Losses(Init(tokens), es) == losses
    ensures Quiet(s, 3 * losses) && |s.workers| == 2 * losses && s.tokens == tokens
  {
    if losses == 0 {
      es, s := [], Init(tokens);
    } else {
      var es1, s1 := LosesMany(tokens, losses - 1);
      var es2;
      es2, s := LosesTwo(s1, 3 * losses - 3);
      RunOn(Init(tokens), es1, es2);
      es := es1 + es2;
      assert |s1.workers + {s1.next, s1.next + 1}| == |s1.workers| + 2;
    }
  }

  lemma {:induction false} StartsMany(s: State, u: Task, calls: nat) returns (es: seq<Event>)
    requires s.idle == [] && (forall t :: t in s.calls ==> t < u) && (forall w :: w in s.workers ==> w < s.next)
    requires |InFlight(s)| + calls <= s.tokens
    ensures Run(s, es).Some? && Losses(s, es) == 0
    ensures |Run(s, es).value.workers| == |s.workers| + calls
    decreases calls
  {
    if calls == 0 {
      es := [];
    } else {
      var es1 := Starts(s, u);
      var s1 := Run(s, es1).value;
      InFlightSet(s, u, Running(s.next));
      assert InFlight(s1) == InFlight(s) + {u};
      var es2 := StartsMany(s1, u + 1, calls - 1);
      RunOn(s, es1, es2);
      es := es1 + es2;
    }
  }
}
