/**
 Tasks calling one cached coroutine function concurrently. A task runs without interruption from one await to
 the next: until it waits for the lock of its key, until it awaits the wrapped function, and to the end.
 */
module LruTasks {
  import opened Outcomes

  type Key = string
  type Value = int
  type Task = nat
  type Lock = nat

  /** A cache entry: no value yet and the lock it was made with, or a value and no lock. */
  datatype Cell = Empty(lock: Lock) | Full(value: Value)

  /** Where a call is: computed tells whether it failed inside the wrapped function. */
  datatype Place =
    | Waiting(key: Key, lock: Lock)
    | Computing(key: Key, lock: Lock)
    | Bypassing(key: Key)
    | Returned(key: Key, value: Value)
    | Failed(key: Key, computed: bool)

  /**
   The ordered dictionary is order and cells. Locks are numbered; madeFor lists the keys they were made for; started and
   raised are the calls of the wrapped function that began and that failed.
   */
  datatype State = State(
    maxsize: Option<nat>,
    order: seq<Key>,
    cells: map<Key, Cell>,
    holder: map<Lock, Task>,
    madeFor: seq<Key>,
    calls: map<Task, Place>,
    hits: nat, misses: nat, currsize: nat,
    started: multiset<Key>, raised: multiset<Key>)

  function Init(maxsize: Option<nat>): State {
    State(maxsize, [], map[], map[], [], map[], 0, 0, 0, multiset{}, multiset{})
  }

  /** Begin a call, get the lock, see the wrapped function return or raise, or be cancelled while waiting. */
  datatype Event =
    | Begin(t: Task, key: Key)
    | Acquire(t: Task)
    | Finish(t: Task, value: Value)
    | Fail(t: Task)
    | Quit(t: Task)

  function Drop(order: seq<Key>, k: Key): seq<Key> {
    if order == [] then [] else if order[0] == k then order[1..] else [order[0]] + Drop(order[1..], k)
  }

  /** move_to_end. */
  function Touch(order: seq<Key>, k: Key): seq<Key> {
    Drop(order, k) + [k]
  }

  function Start(s: State, t: Task, k: Key): State {
    if s.maxsize == Some(0) then s.(calls := s.calls[t := Bypassing(k)])
    else if k !in s.cells then
      var l := |s.madeFor|;
      s.(cells := s.cells[k := Empty(l)], order := s.order + [k],
         calls := s.calls[t := Waiting(k, l)], madeFor := s.madeFor + [k])
    else
      match s.cells[k]
      case Full(v) => s.(hits := s.hits + 1, order := Touch(s.order, k), calls := s.calls[t := Returned(k, v)])
      case Empty(l) => s.(calls := s.calls[t := Waiting(k, l)])
  }

  /** With the lock just acquired: a miss makes room or grows, a hit releases the lock again. */
  function Enter(s: State, t: Task, k: Key, l: Lock): State {
    if k !in s.cells then s.(calls := s.calls[t := Failed(k, false)])
    else
      match s.cells[k]
      case Full(v) => s.(hits := s.hits + 1, order := Touch(s.order, k), calls := s.calls[t := Returned(k, v)])
      case Empty(_) =>
        var s1 := s.(misses := s.misses + 1, holder := s.holder[l := t], started := s.started + multiset{k},
                     calls := s.calls[t := Computing(k, l)]);
        if s.maxsize.Some? && s.currsize >= s.maxsize.value && s.order != [] then
          s1.(order := s.order[1..], cells := s.cells - {s.order[0]})
        else
          s1.(currsize := s.currsize + 1)
  }

  function Leave(s: State, t: Task, k: Key, l: Lock, v: Value): State {
    s.(cells := s.cells[k := Full(v)], order := if k in s.cells then s.order else s.order + [k],
       holder := s.holder - {l}, calls := s.calls[t := Returned(k, v)])
  }

  function Step(s: State, e: Event): Option<State> {
    match e
    case Begin(t, k) => if t in s.calls then None else Some(Start(s, t, k))
    case Acquire(t) =>
      if t in s.calls && s.calls[t].Waiting? && s.calls[t].lock !in s.holder
      then Some(Enter(s, t, s.calls[t].key, s.calls[t].lock)) else None
    case Finish(t, v) =>
      if t !in s.calls then None
      else
        (match s.calls[t]
         case Computing(k, l) => Some(Leave(s, t, k, l, v))
         case Bypassing(k) => Some(s.(misses := s.misses + 1, calls := s.calls[t := Returned(k, v)]))
         case _ => None)
    case Fail(t) =>
      if t !in s.calls then None
      else
        (match s.calls[t]
         case Computing(k, l) =>
           Some(s.(holder := s.holder - {l}, calls := s.calls[t := Failed(k, true)], raised := s.raised + multiset{k}))
         case Bypassing(k) => Some(s.(calls := s.calls[t := Failed(k, true)]))
         case _ => None)
    case Quit(t) =>
      if t in s.calls && s.calls[t].Waiting? then Some(s.(calls := s.calls[t := Failed(s.calls[t].key, false)]))
      else None
  }

  function Run(s: State, es: seq<Event>): Option<State>
    decreases |es|
  {
    if es == [] then Some(s)
    else if Step(s, es[0]).None? then None
    else Run(Step(s, es[0]).value, es[1..])
  }

  // ----- the invariant of an unbounded cache ----------------------------------------------------

  predicate InFlight(p: Place) {
    p.Waiting? || p.Computing?
  }

  /** The keys whose value is there or being computed. */
  function Busy(s: State): set<Key> {
    set k | k in s.cells && (s.cells[k].Full? || s.cells[k].lock in s.holder)
  }

  /** The calls that were counted as a hit or a miss. */
  function Counted(s: State): set<Task> {
    set t | t in s.calls
            && (s.calls[t].Returned? || s.calls[t].Computing? || (s.calls[t].Failed? && s.calls[t].computed))
  }

  /** One lock has been made for each key that has an entry. */
  ghost predicate MadeOk(s: State) {
    && (forall l, l' :: 0 <= l < l' < |s.madeFor| ==> s.madeFor[l] != s.madeFor[l'])
    && (forall l :: 0 <= l < |s.madeFor| ==> s.madeFor[l] in s.cells)
    && (forall k :: k in s.cells && s.cells[k].Empty? ==>
          s.cells[k].lock < |s.madeFor| && s.madeFor[s.cells[k].lock] == k)
  }

  /** A lock is held exactly by the task that is computing under it. */
  ghost predicate LocksOk(s: State) {
    && (forall t :: t in s.calls && InFlight(s.calls[t]) ==>
          s.calls[t].lock < |s.madeFor| && s.madeFor[s.calls[t].lock] == s.calls[t].key)
    && (forall l :: l in s.holder ==>
          s.holder[l] in s.calls && s.calls[s.holder[l]].Computing? && s.calls[s.holder[l]].lock == l)
    && (forall t :: t in s.calls && s.calls[t].Computing? ==>
          && s.calls[t].lock in s.holder && s.holder[s.calls[t].lock] == t
          && s.calls[t].key in s.cells && s.cells[s.calls[t].key] == Empty(s.calls[t].lock))
  }

  ghost predicate ValuesOk(s: State) {
    forall t :: t in s.calls ==>
      && !s.calls[t].Bypassing?
      && (s.calls[t].Returned? ==> s.calls[t].key in s.cells && s.cells[s.calls[t].key] == Full(s.calls[t].value))
  }

  /** A function call begins for a key once, and again only after it has failed; every begun one is a miss. */
  ghost predicate CountsOk(s: State) {
    && s.started == s.raised + multiset(Busy(s))
    && s.misses == |s.started| && s.currsize == s.misses
    && s.hits + s.misses == |Counted(s)|
  }

  ghost predicate Inv(s: State) {
    s.maxsize.None? && MadeOk(s) && LocksOk(s) && ValuesOk(s) && CountsOk(s)
  }

  lemma InitInv()
    ensures Inv(Init(None))
  {
    var s := Init(None);
    assert Busy(s) == {} && Counted(s) == {};
  }

  ghost predicate StructureOk(s: State) {
    MadeOk(s) && LocksOk(s) && ValuesOk(s)
  }

  lemma FirstBegin(s: State, t: Task, k: Key)
    requires s.maxsize.None? && StructureOk(s) && t !in s.calls && k !in s.cells
    ensures StructureOk(Start(s, t, k))
  {
  }

  lemma LaterBegin(s: State, t: Task, k: Key)
    requires s.maxsize.None? && StructureOk(s) && t !in s.calls && k in s.cells
    ensures StructureOk(Start(s, t, k))
  {
  }

  lemma AcquireMade(s: State, t: Task)
    requires s.maxsize.None? && StructureOk(s) && Step(s, Acquire(t)).Some?
    ensures MadeOk(Step(s, Acquire(t)).value)
  {
  }

  lemma AcquireLocks(s: State, t: Task)
    requires s.maxsize.None? && StructureOk(s) && Step(s, Acquire(t)).Some?
    ensures LocksOk(Step(s, Acquire(t)).value)
  {
    var k, l := s.calls[t].key, s.calls[t].lock;
    assert k in s.cells && (s.cells[k].Empty? ==> s.cells[k].lock == l);
    assert forall u :: u in s.calls && s.calls[u].Computing? ==> s.calls[u].lock != l;
  }

  lemma AcquireValues(s: State, t: Task)
    requires s.maxsize.None? && StructureOk(s) && Step(s, Acquire(t)).Some?
    ensures ValuesOk(Step(s, Acquire(t)).value)
  {
  }

  lemma AcquireStructure(s: State, t: Task)
    requires s.maxsize.None? && StructureOk(s) && Step(s, Acquire(t)).Some?
    ensures StructureOk(Step(s, Acquire(t)).value)
  {
    AcquireMade(s, t);
    AcquireLocks(s, t);
    AcquireValues(s, t);
  }

  lemma FinishStructure(s: State, t: Task, v: Value)
    requires s.maxsize.None? && StructureOk(s) && Step(s, Finish(t, v)).Some?
    ensures StructureOk(Step(s, Finish(t, v)).value)
  {
  }

  lemma FailStructure(s: State, t: Task)
    requires s.maxsize.None? && StructureOk(s) && Step(s, Fail(t)).Some?
    ensures StructureOk(Step(s, Fail(t)).value)
  {
  }

  lemma QuitStructure(s: State, t: Task)
    requires s.maxsize.None? && StructureOk(s) && Step(s, Quit(t)).Some?
    ensures StructureOk(Step(s, Quit(t)).value)
  {
  }

  lemma FirstBeginCounts(s: State, t: Task, k: Key)
    requires Inv(s) && t !in s.calls && k !in s.cells
    ensures CountsOk(Start(s, t, k))
  {
    var s' := Start(s, t, k);
    assert |s.madeFor| !in s.holder;
    assert Busy(s') == Busy(s) && Counted(s') == Counted(s);
  }

  lemma LaterBeginCounts(s: State, t: Task, k: Key)
    requires Inv(s) && t !in s.calls && k in s.cells
    ensures CountsOk(Start(s, t, k))
  {
    var s' := Start(s, t, k);
    LaterBusy(s, t, k);
    LaterCounted(s, t, k);
    assert t !in Counted(s);
    assert s'.started == s.started && s'.raised == s.raised;
  }

  lemma LaterBusy(s: State, t: Task, k: Key)
    requires k in s.cells
    ensures Busy(Start(s, t, k)) == Busy(s)
  {
    var s' := Start(s, t, k);
    assert s'.cells == s.cells && s'.holder == s.holder;
  }

  lemma LaterCounted(s: State, t: Task, k: Key)
    requires t !in s.calls && k in s.cells && s.maxsize != Some(0)
    ensures Counted(Start(s, t, k)) == if s.cells[k].Full? then Counted(s) + {t} else Counted(s)
  {
    var s' := Start(s, t, k);
    assert s'.calls == s.calls[t := s'.calls[t]];
  }

  lemma AcquireCounts(s: State, t: Task)
    requires Inv(s) && Step(s, Acquire(t)).Some?
    ensures CountsOk(Step(s, Acquire(t)).value)
  {
    var k := s.calls[t].key;
    assert k in s.cells;
    if s.cells[k].Empty? { MissCounts(s, t); } else { HitCounts(s, t); }
  }

  lemma MissBusy(s: State, t: Task)
    requires Inv(s) && Step(s, Acquire(t)).Some?
    requires s.calls[t].key in s.cells && s.cells[s.calls[t].key].Empty?
    ensures s.calls[t].key !in Busy(s)
    ensures Busy(Step(s, Acquire(t)).value) == Busy(s) + {s.calls[t].key}
  {
    assert s.cells[s.calls[t].key].lock == s.calls[t].lock;
  }

  lemma MissCounts(s: State, t: Task)
    requires Inv(s) && Step(s, Acquire(t)).Some?
    requires s.calls[t].key in s.cells && s.cells[s.calls[t].key].Empty?
    ensures CountsOk(Step(s, Acquire(t)).value)
  {
    var s' := Step(s, Acquire(t)).value;
    var k := s.calls[t].key;
    assert s'.misses == s.misses + 1 && s'.currsize == s.currsize + 1 && s'.hits == s.hits && s'.raised == s.raised;
    assert s'.started == s.started + multiset{k};
    MissBusy(s, t);
    MissCounted(s, t);
    assert multiset(Busy(s')) == multiset(Busy(s)) + multiset{k};
  }

  lemma MissCounted(s: State, t: Task)
    requires Inv(s) && Step(s, Acquire(t)).Some?
    requires s.calls[t].key in s.cells && s.cells[s.calls[t].key].Empty?
    ensures |Counted(Step(s, Acquire(t)).value)| == |Counted(s)| + 1
  {
    assert Counted(Step(s, Acquire(t)).value) == Counted(s) + {t};
  }

  lemma HitCounts(s: State, t: Task)
    requires Inv(s) && Step(s, Acquire(t)).Some?
    requires s.calls[t].key in s.cells && s.cells[s.calls[t].key].Full?
    ensures CountsOk(Step(s, Acquire(t)).value)
  {
    var s' := Step(s, Acquire(t)).value;
    assert Counted(s') == Counted(s) + {t};
    assert Busy(s') == Busy(s);
  }

  lemma FinishCounts(s: State, t: Task, v: Value)
    requires Inv(s) && Step(s, Finish(t, v)).Some?
    ensures CountsOk(Step(s, Finish(t, v)).value)
  {
    var s' := Step(s, Finish(t, v)).value;
    assert Counted(s') == Counted(s);
    assert Busy(s') == Busy(s);
  }

  lemma FailCounts(s: State, t: Task)
    requires Inv(s) && Step(s, Fail(t)).Some?
    ensures CountsOk(Step(s, Fail(t)).value)
  {
    var s' := Step(s, Fail(t)).value;
    var k := s.calls[t].key;
    assert Counted(s') == Counted(s);
    assert k in Busy(s) && Busy(s') == Busy(s) - {k};
    assert multiset(Busy(s)) == multiset(Busy(s')) + multiset{k};
  }

  lemma QuitCounts(s: State, t: Task)
    requires Inv(s) && Step(s, Quit(t)).Some?
    ensures CountsOk(Step(s, Quit(t)).value)
  {
    var s' := Step(s, Quit(t)).value;
    assert Counted(s') == Counted(s) && Busy(s') == Busy(s);
  }

  lemma BeginInv(s: State, t: Task, k: Key)
    requires Inv(s) && t !in s.calls
    ensures Inv(Start(s, t, k))
  {
    if k in s.cells {
      LaterBegin(s, t, k);
      LaterBeginCounts(s, t, k);
    } else {
      FirstBegin(s, t, k);
      FirstBeginCounts(s, t, k);
    }
  }

  lemma StepInv(s: State, e: Event)
    requires Inv(s) && Step(s, e).Some?
    ensures Inv(Step(s, e).value)
  {
    match e {
      case Begin(t, k) => BeginInv(s, t, k);
      case Acquire(t) => AcquireStructure(s, t); AcquireCounts(s, t);
      case Finish(t, v) => FinishStructure(s, t, v); FinishCounts(s, t, v);
      case Fail(t) => FailStructure(s, t); FailCounts(s, t);
      case Quit(t) => QuitStructure(s, t); QuitCounts(s, t);
    }
  }

  lemma {:induction false} RunInv(s: State, es: seq<Event>)
    requires Inv(s) && Run(s, es).Some?
    ensures Inv(Run(s, es).value)
    decreases |es|
  {
    if es != [] {
      StepInv(s, es[0]);
      RunInv(Step(s, es[0]).value, es[1..]);
    }
  }

  // ----- what every interleaving keeps -----------------------------------------------------------

  /** At most one task is inside the wrapped function for a key. */
  lemma OneAtATime(es: seq<Event>, t: Task, t': Task)
    requires Run(Init(None), es).Some?
    requires var s := Run(Init(None), es).value;
             t in s.calls && t' in s.calls && s.calls[t].Computing? && s.calls[t'].Computing?
             && s.calls[t].key == s.calls[t'].key
    ensures t == t'
  {
    InitInv();
    RunInv(Init(None), es);
  }

  /** All calls for a key that return, return the same value. */
  lemma OneValue(es: seq<Event>, t: Task, t': Task)
    requires Run(Init(None), es).Some?
    requires var s := Run(Init(None), es).value;
             t in s.calls && t' in s.calls && s.calls[t].Returned? && s.calls[t'].Returned?
             && s.calls[t].key == s.calls[t'].key
    ensures Run(Init(None), es).value.calls[t] == Run(Init(None), es).value.calls[t']
  {
    InitInv();
    RunInv(Init(None), es);
  }

  /** The wrapped function begins for a key at most once more often than it failed for it. */
  lemma BegunOncePerFailure(es: seq<Event>, k: Key)
    requires Run(Init(None), es).Some?
    ensures var s := Run(Init(None), es).value;
            s.raised[k] <= s.started[k] <= s.raised[k] + 1 && s.misses == |s.started|
  {
    InitInv();
    RunInv(Init(None), es);
    var s := Run(Init(None), es).value;
    assert multiset(Busy(s))[k] <= 1;
  }

  /**
   When every call has returned and the function never failed, each key that was called has been computed
   exactly once, the misses are the number of those keys, and every call was a hit or a miss.
   */
  lemma ComputedExactlyOnce(es: seq<Event>)
    requires Run(Init(None), es).Some?
    requires var s := Run(Init(None), es).value;
             s.raised == multiset{} && forall t :: t in s.calls ==> s.calls[t].Returned?
    ensures var s := Run(Init(None), es).value;
            && s.started == multiset(CalledKeys(s)) && s.misses == |CalledKeys(s)| == s.currsize
            && s.hits + s.misses == |s.calls|
  {
    InitInv();
    RunInv(Init(None), es);
    AskedRun(Init(None), es);
    var s := Run(Init(None), es).value;
    assert forall k :: k in s.cells ==> Asked(s, k);
    AllComputed(s);
  }

  function CalledKeys(s: State): set<Key> {
    set t | t in s.calls :: s.calls[t].key
  }

  lemma BusyAreCalled(s: State)
    requires Inv(s) && (forall k :: k in s.cells ==> Asked(s, k)) && (forall t :: t in s.calls ==> s.calls[t].Returned?)
    ensures Busy(s) == CalledKeys(s)
  {
    forall k | k in s.cells ensures k in CalledKeys(s) {
      assert Asked(s, k);
    }
    forall k | k in CalledKeys(s) ensures k in Busy(s) {
      var t :| t in s.calls && s.calls[t].key == k;
    }
  }

  lemma AllComputed(s: State)
    requires Inv(s) && (forall k :: k in s.cells ==> Asked(s, k)) && (forall t :: t in s.calls ==> s.calls[t].Returned?)
    requires s.raised == multiset{}
    ensures s.started == multiset(CalledKeys(s)) && s.misses == |CalledKeys(s)| == s.currsize
    ensures s.hits + s.misses == |s.calls|
  {
    BusyAreCalled(s);
    assert Counted(s) == s.calls.Keys;
  }

  ghost predicate Asked(s: State, k: Key) {
    exists t :: t in s.calls && s.calls[t].key == k
  }

  /** Only a call makes an entry. */
  lemma {:induction false} AskedRun(s: State, es: seq<Event>)
    requires s.maxsize.None? && (forall k :: k in s.cells ==> Asked(s, k)) && Run(s, es).Some?
    ensures forall k :: k in Run(s, es).value.cells ==> Asked(Run(s, es).value, k)
    decreases |es|
  {
    if es != [] {
      var s' := Step(s, es[0]).value;
      forall k | k in s'.cells
        ensures Asked(s', k)
      {
        var u := es[0].t;
        if k in s.cells {
          var t :| t in s.calls && s.calls[t].key == k;
          assert t in s'.calls && s'.calls[t].key == k;
        } else {
          assert u in s'.calls && s'.calls[u].key == k;
        }
      }
      AskedRun(s', es[1..]);
    }
  }

  // ----- and what a bounded cache does not keep ---------------------------------------------------

  const FIRST_STEPS := [Begin(0, "a"), Acquire(0), Begin(1, "b"), Acquire(1)]

  /** The entry of a key that is still being computed is evicted. */
  const EVICTED := State(Some(1), ["b"], map["b" := Empty(1)], map[0 := 0, 1 := 1], ["a", "b"],
                         map[0 := Computing("a", 0), 1 := Computing("b", 1)], 0, 2, 1,
                         multiset{"a", "b"}, multiset{})

  lemma EvictsInFlight()
    ensures Run(Init(Some(1)), FIRST_STEPS) == Some(EVICTED)
  {
    var s0 := Init(Some(1));
    var s1 := Step(s0, Begin(0, "a")).value;
    var s2 := Step(s1, Acquire(0)).value;
    var s3 := Step(s2, Begin(1, "b")).value;
    var s4 := Step(s3, Acquire(1)).value;
    assert s2.order == ["a"] && s2.currsize == 1 && s2.cells == map["a" := Empty(0)];
    assert s3.order == ["a", "b"] && s3.cells == map["a" := Empty(0), "b" := Empty(1)];
    assert s4.cells == map["b" := Empty(1)] && s4.calls == EVICTED.calls && s4.holder == EVICTED.holder;
    assert s4 == EVICTED;
    var es := FIRST_STEPS;
    assert es[1..] == [Acquire(0), Begin(1, "b"), Acquire(1)];
    assert es[1..][1..] == [Begin(1, "b"), Acquire(1)];
    assert es[1..][1..][1..] == [Acquire(1)];
    assert es[1..][1..][1..][1..] == [];
  }

  /** So the number of entries passes maxsize when that computation returns. */
  lemma TooManyEntries(v: Value)
    ensures var s := Step(EVICTED, Finish(0, v)).value;
            s.maxsize == Some(1) && s.order == ["b", "a"] && |s.cells| == 2
  {
    var s := Step(EVICTED, Finish(0, v)).value;
    assert s.cells == map["b" := Empty(1), "a" := Full(v)];
    assert s.cells.Keys == {"a", "b"};
  }

  /** And the same key can be computed by two tasks at once. */
  lemma TwoAtATime()
    ensures var s := Step(Step(EVICTED, Begin(2, "a")).value, Acquire(2)).value;
            s.calls[0] == Computing("a", 0) && s.calls[2] == Computing("a", 2)
  {
  }

  /** Failures do the same: here there is one key only, and its first call fails. */
  const FAILING_STEPS := [Begin(0, "a"), Acquire(0), Fail(0), Begin(1, "a"), Acquire(1), Begin(2, "a"), Acquire(2)]

  lemma NextOf(s: State, es: seq<Event>, k: nat, s': State)
    requires k < |es| && Step(s, es[k]) == Some(s')
    ensures Run(s, es[k..]) == Run(s', es[k + 1..])
  {
    assert es[k..][0] == es[k] && es[k..][1..] == es[k + 1..];
  }

  /** After the failed call: its entry is still there and has been counted. */
  ghost predicate FailedOnce(s: State) {
    && s.maxsize == Some(1) && s.currsize == 1 && s.order == ["a"] && s.cells == map["a" := Empty(0)]
    && s.holder == map[] && |s.madeFor| == 1 && s.calls == map[0 := Failed("a", true)]
  }

  lemma BeginsOnce() returns (s: State)
    ensures Run(Init(Some(1)), FAILING_STEPS) == Run(s, FAILING_STEPS[2..])
    ensures s.maxsize == Some(1) && s.currsize == 1 && s.order == ["a"] && s.cells == map["a" := Empty(0)]
    ensures s.holder == map[0 := 0] && |s.madeFor| == 1 && s.calls == map[0 := Computing("a", 0)]
  {
    var es, s0 := FAILING_STEPS, Init(Some(1));
    var s1 := Step(s0, es[0]).value;
    assert es[0..] == es;
    NextOf(s0, es, 0, s1);
    assert s1.order == ["a"] && s1.cells == map["a" := Empty(0)] && s1.calls == map[0 := Waiting("a", 0)];
    s := Step(s1, es[1]).value;
    NextOf(s1, es, 1, s);
    assert s.calls == map[0 := Computing("a", 0)] && s.holder == map[0 := 0];
  }

  lemma FailsOnce() returns (s: State)
    ensures Run(Init(Some(1)), FAILING_STEPS) == Run(s, FAILING_STEPS[3..]) && FailedOnce(s)
  {
    var s2 := BeginsOnce();
    FailsNow(s2);
    s := Step(s2, Fail(0)).value;
    NextOf(s2, FAILING_STEPS, 2, s);
  }

  lemma FailsNow(s: State)
    requires s.maxsize == Some(1) && s.currsize == 1 && s.order == ["a"] && s.cells == map["a" := Empty(0)]
    requires s.holder == map[0 := 0] && |s.madeFor| == 1 && s.calls == map[0 := Computing("a", 0)]
    ensures Step(s, Fail(0)).Some? && FailedOnce(Step(s, Fail(0)).value)
  {
    assert map[0 := Computing("a", 0)][0 := Failed("a", true)] == map[0 := Failed("a", true)];
    assert map[0 := 0] - {0} == map[];
  }

  /** The next call evicts the entry it has been waiting for. */
  lemma EvictsItself(s: State) returns (s': State)
    requires FailedOnce(s)
    ensures Run(s, FAILING_STEPS[3..]) == Run(s', FAILING_STEPS[5..])
    ensures s'.maxsize == Some(1) && s'.currsize == 1 && s'.order == [] && s'.cells == map[] && s'.holder == map[0 := 1]
    ensures |s'.madeFor| == 1 && s'.calls == map[0 := Failed("a", true), 1 := Computing("a", 0)]
  {
    var es := FAILING_STEPS;
    var s1 := Step(s, es[3]).value;
    NextOf(s, es, 3, s1);
    assert s1.calls == map[0 := Failed("a", true), 1 := Waiting("a", 0)];
    s' := Step(s1, es[4]).value;
    NextOf(s1, es, 4, s');
    assert s'.order == [] && s'.cells == map[];
    assert s'.calls == map[0 := Failed("a", true), 1 := Computing("a", 0)];
  }

  /** So the third call computes the key beside the second, and there is no entry left. */
  lemma TwoAfterFailure()
    ensures Run(Init(Some(1)), FAILING_STEPS).Some?
    ensures var s := Run(Init(Some(1)), FAILING_STEPS).value;
            s.calls == map[0 := Failed("a", true), 1 := Computing("a", 0), 2 := Computing("a", 1)] && s.cells == map[]
  {
    var es := FAILING_STEPS;
    var s3 := FailsOnce();
    var s5 := EvictsItself(s3);
    var s7 := ComputesBeside(s5);
    assert s7.calls == map[0 := Failed("a", true), 1 := Computing("a", 0), 2 := Computing("a", 1)];
    assert es[7..] == [];
  }

  lemma ComputesBeside(s: State) returns (s': State)
    requires s.maxsize == Some(1) && s.currsize == 1 && s.order == [] && s.cells == map[] && s.holder == map[0 := 1]
    requires |s.madeFor| == 1 && 2 !in s.calls
    ensures Run(s, FAILING_STEPS[5..]) == Run(s', FAILING_STEPS[7..])
    ensures s'.cells == map[] && s'.calls == s.calls[2 := Computing("a", 1)]
  {
    var es := FAILING_STEPS;
    var s1 := Step(s, es[5]).value;
    NextOf(s, es, 5, s1);
    assert s1.order == ["a"] && s1.cells == map["a" := Empty(1)] && s1.calls == s.calls[2 := Waiting("a", 1)];
    s' := Step(s1, es[6]).value;
    NextOf(s1, es, 6, s');
    assert s'.calls == s.calls[2 := Computing("a", 1)];
  }
}
