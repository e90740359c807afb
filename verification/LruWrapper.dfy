/**
 The wrapper around a coroutine function when no call overlaps another; the wrapped function may raise. An entry made
 for a call that raises stays without a value.
 */
module LruWrapper {
  import opened Collections
  import opened Outcomes
  import opened LruTasks
  import opened LruCache

  /** The ordered dictionary, whose entries may have no value yet, and the counters. */
  datatype Items = Items(order: seq<Key>, cells: map<Key, Option<Value>>, hits: nat, misses: nat, currsize: nat)

  /** A call and what the wrapped function does if it is called: return an answer, or raise. */
  datatype Attempt = Attempt(key: Key, answer: Option<Value>)

  const EMPTY := Items([], map[], 0, 0, 0)

  predicate Holds(d: Items, k: Key) {
    k in d.cells && d.cells[k].Some?
  }

  /** The call finds the entry that a call which raised has left. */
  predicate Retries(d: Items, k: Key) {
    k in d.cells && d.cells[k].None?
  }

  predicate AtSize(maxsize: Option<nat>, d: Items) {
    maxsize.Some? && d.currsize >= maxsize.value
  }

  function WithEntry(d: Items, k: Key): Items {
    if k in d.cells then d else d.(order := d.order + [k], cells := d.cells[k := None])
  }

  /** A miss before the wrapped function is called: room is made, which may take the entry itself. */
  function Entered(maxsize: Option<nat>, d: Items, k: Key): Items {
    var d1 := WithEntry(d, k).(misses := d.misses + 1);
    if AtSize(maxsize, d) && d1.order != []
    then d1.(order := d1.order[1..], cells := d1.cells - {d1.order[0]})
    else d1.(currsize := d.currsize + 1)
  }

  function Stored(d: Items, k: Key, v: Value): Items {
    d.(order := if k in d.cells then d.order else d.order + [k], cells := d.cells[k := Some(v)])
  }

  function Attempted(maxsize: Option<nat>, d: Items, a: Attempt): Items {
    if maxsize == Some(0) then d.(misses := d.misses + if a.answer.Some? then 1 else 0)
    else if Holds(d, a.key) then d.(hits := d.hits + 1, order := Touch(d.order, a.key))
    else
      match a.answer
      case None => Entered(maxsize, d, a.key)
      case Some(v) => Stored(Entered(maxsize, d, a.key), a.key, v)
  }

  /** What the call returns; None if it raises. */
  function Result(d: Items, a: Attempt): Option<Value> {
    if Holds(d, a.key) then d.cells[a.key] else a.answer
  }

  function Attempts(maxsize: Option<nat>, d: Items, calls: seq<Attempt>): Items
    decreases |calls|
  {
    if calls == [] then d else Attempts(maxsize, Attempted(maxsize, d, calls[0]), calls[1..])
  }

  // ----- what every call keeps ------------------------------------------------------------------

  /** The size counter says how often the function was called, up to the size; it is not the number of entries. */
  ghost predicate Kept(maxsize: Option<nat>, d: Items) {
    && Distinct(d.order)
    && (forall k :: k in d.order <==> k in d.cells)
    && |d.order| <= d.currsize
    && d.currsize == if maxsize.Some? && maxsize.value < d.misses then maxsize.value else d.misses
  }

  lemma EnteredKeeps(maxsize: Option<nat>, d: Items, k: Key)
    requires Kept(maxsize, d) && maxsize != Some(0)
    ensures var d' := Entered(maxsize, d, k);
            && Kept(maxsize, d')
            && d'.currsize == d.currsize + (if AtSize(maxsize, d) then 0 else 1)
            && |d'.order| == |d.order| + (if k in d.cells then 0 else 1) - (if AtSize(maxsize, d) then 1 else 0)
            && (k in d'.cells <==> !AtSize(maxsize, d) || WithEntry(d, k).order[0] != k)
  {
    EntryKeeps(maxsize, d, k);
    if AtSize(maxsize, d) {
      OldestOut(WithEntry(d, k));
    }
  }

  lemma EntryKeeps(maxsize: Option<nat>, d: Items, k: Key)
    requires Kept(maxsize, d)
    ensures var d1 := WithEntry(d, k);
            && Distinct(d1.order) && (forall x :: x in d1.order <==> x in d1.cells) && k in d1.order
            && |d1.order| == |d.order| + (if k in d.cells then 0 else 1)
  {
  }

  lemma OldestOut(d: Items)
    requires Distinct(d.order) && (forall x :: x in d.order <==> x in d.cells) && d.order != []
    ensures Distinct(d.order[1..]) && forall x :: x in d.order[1..] <==> x in d.cells - {d.order[0]}
  {
    assert forall x :: x in d.order <==> x == d.order[0] || x in d.order[1..];
  }

  lemma StoredKeeps(maxsize: Option<nat>, d: Items, k: Key, v: Value)
    requires Kept(maxsize, d) && (k in d.cells || |d.order| < d.currsize)
    ensures Kept(maxsize, Stored(d, k, v))
    ensures |Stored(d, k, v).order| == |d.order| + (if k in d.cells then 0 else 1)
  {
  }

  lemma AttemptKeeps(maxsize: Option<nat>, d: Items, a: Attempt)
    requires Kept(maxsize, d)
    ensures Kept(maxsize, Attempted(maxsize, d, a))
  {
    if maxsize != Some(0) {
      if Holds(d, a.key) {
        DropKeeps(d.order, a.key);
        TouchKeeps(d.order, a.key);
      } else {
        EnteredKeeps(maxsize, d, a.key);
        if a.answer.Some? { StoredKeeps(maxsize, Entered(maxsize, d, a.key), a.key, a.answer.value); }
      }
    }
  }

  lemma {:induction false} AttemptsKeep(maxsize: Option<nat>, d: Items, calls: seq<Attempt>)
    requires Kept(maxsize, d)
    ensures Kept(maxsize, Attempts(maxsize, d, calls))
    decreases |calls|
  {
    if calls != [] {
      AttemptKeeps(maxsize, d, calls[0]);
      AttemptsKeep(maxsize, Attempted(maxsize, d, calls[0]), calls[1..]);
    }
  }

  // ----- calls that raise cost room -------------------------------------------------------------

  /** How much the size counter is ahead of the number of entries. */
  function Ahead(d: Items): int {
    d.currsize - |d.order|
  }

  /** A retry that is not for the oldest entry of a cache at its size, or that raises as well. */
  predicate Wastes(maxsize: Option<nat>, d: Items, a: Attempt) {
    && maxsize != Some(0) && Retries(d, a.key)
    && !(AtSize(maxsize, d) && d.order != [] && d.order[0] == a.key && a.answer.Some?)
  }

  ghost predicate NoneWastes(maxsize: Option<nat>, d: Items, calls: seq<Attempt>)
    decreases |calls|
  {
    calls != [] ==>
      !Wastes(maxsize, d, calls[0]) && NoneWastes(maxsize, Attempted(maxsize, d, calls[0]), calls[1..])
  }

  /** Only an empty cache at its size gains room, and one place of it. */
  lemma AheadStep(maxsize: Option<nat>, d: Items, a: Attempt)
    requires Kept(maxsize, d)
    ensures var d' := Attempted(maxsize, d, a);
            Ahead(d') == Ahead(d) + (if Wastes(maxsize, d, a) then 1 else 0)
                       - (if maxsize != Some(0) && AtSize(maxsize, d) && d.order == [] && a.answer.Some? then 1 else 0)
  {
    if maxsize != Some(0) {
      if Holds(d, a.key) {
        DropKeeps(d.order, a.key);
      } else {
        EnteredKeeps(maxsize, d, a.key);
        if a.answer.Some? { StoredSize(maxsize, d, a); }
      }
    }
  }

  lemma StoredSize(maxsize: Option<nat>, d: Items, a: Attempt)
    requires Kept(maxsize, d) && maxsize != Some(0) && !Holds(d, a.key) && a.answer.Some?
    ensures var e := Entered(maxsize, d, a.key);
            && |Attempted(maxsize, d, a).order| == |e.order| + (if a.key in e.cells then 0 else 1)
            && (a.key in e.cells <==> !AtSize(maxsize, d) || WithEntry(d, a.key).order[0] != a.key)
  {
    EnteredKeeps(maxsize, d, a.key);
    StoredKeeps(maxsize, Entered(maxsize, d, a.key), a.key, a.answer.value);
  }

  /** With a size other than one: the size counter is the number of entries exactly if no call has wasted room. */
  lemma SizeExactly(maxsize: Option<nat>, calls: seq<Attempt>)
    requires maxsize != Some(1)
    ensures var d := Attempts(maxsize, EMPTY, calls);
            d.currsize == |d.order| <==> NoneWastes(maxsize, EMPTY, calls)
  {
    AheadExactly(maxsize, EMPTY, calls);
  }

  lemma {:induction false} AheadExactly(maxsize: Option<nat>, d: Items, calls: seq<Attempt>)
    requires maxsize != Some(1) && Kept(maxsize, d)
    ensures Ahead(Attempts(maxsize, d, calls)) == 0 <==> Ahead(d) == 0 && NoneWastes(maxsize, d, calls)
    decreases |calls|
  {
    if calls != [] {
      AttemptKeeps(maxsize, d, calls[0]);
      AheadStep(maxsize, d, calls[0]);
      AheadExactly(maxsize, Attempted(maxsize, d, calls[0]), calls[1..]);
    }
  }

  /** The room that was lost stays lost: but for the last place, later calls never get it back. */
  lemma {:induction false} RoomLost(n: nat, d: Items, more: seq<Attempt>)
    requires n > 0 && Kept(Some(n), d)
    ensures var lost := Ahead(d);
            |Attempts(Some(n), d, more).order| <= if lost < n then n - lost else 1
    decreases |more|
  {
    if more == [] {
      assert |d.order| <= n - Ahead(d);
    } else {
      AttemptKeeps(Some(n), d, more[0]);
      AheadStep(Some(n), d, more[0]);
      RoomLost(n, Attempted(Some(n), d, more[0]), more[1..]);
    }
  }

  /** One key that fails as often as the cache has places leaves one place, for all later calls. */
  lemma OnePlaceLeft(n: nat, k: Key, more: seq<Attempt>) returns (failed: seq<Attempt>)
    requires n > 0
    ensures |failed| == n && forall i :: 0 <= i < n ==> failed[i] == Attempt(k, None)
    ensures |Attempts(Some(n), Attempts(Some(n), EMPTY, failed), more).order| <= 1
  {
    failed := seq(n, i => Attempt(k, None));
    var first := Attempted(Some(n), EMPTY, failed[0]);
    assert first.order == [k] && first.cells == map[k := None];
    AttemptKeeps(Some(n), EMPTY, failed[0]);
    FailsAgain(n, k, first, failed[1..]);
    AttemptsKeep(Some(n), EMPTY, failed);
    RoomLost(n, Attempts(Some(n), EMPTY, failed), more);
  }

  lemma {:induction false} FailsAgain(n: nat, k: Key, d: Items, failed: seq<Attempt>)
    requires d.order == [k] && d.cells == map[k := None] && d.currsize + |failed| == n
    requires forall i :: 0 <= i < |failed| ==> failed[i] == Attempt(k, None)
    ensures var d' := Attempts(Some(n), d, failed); d'.order == [k] && d'.currsize == n
    decreases |failed|
  {
    if failed != [] { FailsAgain(n, k, Attempted(Some(n), d, failed[0]), failed[1..]); }
  }

  // ----- values ---------------------------------------------------------------------------------

  /** Every value held was returned for its key by a call. */
  ghost predicate AllGiven(d: Items, calls: seq<Attempt>) {
    forall k :: Holds(d, k) ==> Attempt(k, d.cells[k]) in calls
  }

  lemma {:induction false} ValuesGiven(maxsize: Option<nat>, d: Items, before: seq<Attempt>, calls: seq<Attempt>)
    requires AllGiven(d, before)
    ensures AllGiven(Attempts(maxsize, d, calls), before + calls)
    decreases |calls|
  {
    if calls == [] {
      assert before + calls == before;
    } else {
      assert AllGiven(Attempted(maxsize, d, calls[0]), before + [calls[0]]);
      ValuesGiven(maxsize, Attempted(maxsize, d, calls[0]), before + [calls[0]], calls[1..]);
      assert before + [calls[0]] + calls[1..] == before + calls;
    }
  }

  /** If all calls of a key that return agree, a cached call returns what they do, whatever calls have raised. */
  lemma TransparentOnReturn(maxsize: Option<nat>, calls: seq<Attempt>, next: Attempt)
    requires next.answer.Some?
    requires forall i :: 0 <= i < |calls| && calls[i].key == next.key && calls[i].answer.Some? ==> calls[i] == next
    ensures Result(Attempts(maxsize, EMPTY, calls), next) == next.answer
  {
    ValuesGiven(maxsize, EMPTY, [], calls);
    assert [] + calls == calls;
  }

  // ----- while no call raises -------------------------------------------------------------------

  /** Every entry has a value and the size counter is right: the cache is a plain memo. */
  ghost predicate Settled(maxsize: Option<nat>, d: Items) {
    && Kept(maxsize, d) && d.currsize == |d.order|
    && (forall k :: k in d.cells ==> d.cells[k].Some?)
  }

  ghost function Memo(d: Items): Cache
    requires forall k :: k in d.cells ==> d.cells[k].Some?
  {
    Cache(d.order, map k | k in d.cells :: d.cells[k].value, d.hits, d.misses)
  }

  /** A call that returns does on such a cache what the reference memo does. */
  lemma MemoStep(maxsize: Option<nat>, d: Items, call: Call)
    requires Settled(maxsize, d)
    ensures var d' := Attempted(maxsize, d, Attempt(call.key, Some(call.answer)));
            Settled(maxsize, d') && Memo(d') == After(maxsize, Memo(d), call)
    ensures Result(d, Attempt(call.key, Some(call.answer))) == Some(Answered(Memo(d), call))
  {
    if maxsize == Some(0) {
      assert Memo(d).values == map[] == After(maxsize, Memo(d), call).values;
    } else if Holds(d, call.key) {
      DropKeeps(d.order, call.key);
      TouchKeeps(d.order, call.key);
      assert |Touch(d.order, call.key)| == |d.order|;
    } else {
      MissStep(maxsize, d, call);
    }
  }

  function Returning(calls: seq<Call>): seq<Attempt> {
    seq(|calls|, i requires 0 <= i < |calls| => Attempt(calls[i].key, Some(calls[i].answer)))
  }

  /** While no call raises, the wrapper is the reference memo. */
  lemma {:induction false} SameAsMemo(maxsize: Option<nat>, calls: seq<Call>)
    ensures var d := Attempts(maxsize, EMPTY, Returning(calls));
            Settled(maxsize, d) && Memo(d) == Calls(maxsize, calls)
  {
    if calls == [] {
      NoCalls(maxsize);
    } else {
      var before, call := calls[..|calls| - 1], calls[|calls| - 1];
      SameAsMemo(maxsize, before);
      assert calls == before + [call];
      OneMore(maxsize, before, call);
    }
  }

  lemma OneMore(maxsize: Option<nat>, before: seq<Call>, call: Call)
    requires var d := Attempts(maxsize, EMPTY, Returning(before));
             Settled(maxsize, d) && Memo(d) == Calls(maxsize, before)
    ensures var d := Attempts(maxsize, EMPTY, Returning(before + [call]));
            Settled(maxsize, d) && Memo(d) == Calls(maxsize, before + [call])
  {
    MemoNext(maxsize, Attempts(maxsize, EMPTY, Returning(before)), Calls(maxsize, before), call);
    ReturningLast(maxsize, before, call);
    LastCall(maxsize, before, call);
  }

  lemma LastCall(maxsize: Option<nat>, before: seq<Call>, call: Call)
    ensures Calls(maxsize, before + [call]) == After(maxsize, Calls(maxsize, before), call)
  {
    assert (before + [call])[..|before|] == before;
  }

  lemma NoCalls(maxsize: Option<nat>)
    ensures Settled(maxsize, EMPTY) && Memo(EMPTY) == Calls(maxsize, [])
  {
    assert Memo(EMPTY).values == map[];
  }

  lemma MemoNext(maxsize: Option<nat>, d: Items, c: Cache, call: Call)
    requires Settled(maxsize, d) && Memo(d) == c
    ensures var d' := Attempted(maxsize, d, Attempt(call.key, Some(call.answer)));
            Settled(maxsize, d') && Memo(d') == After(maxsize, c, call)
  {
    MemoStep(maxsize, d, call);
  }

  lemma ReturningLast(maxsize: Option<nat>, before: seq<Call>, call: Call)
    ensures Attempts(maxsize, EMPTY, Returning(before + [call])) ==
            Attempted(maxsize, Attempts(maxsize, EMPTY, Returning(before)), Attempt(call.key, Some(call.answer)))
  {
    LastAttempt(maxsize, EMPTY, Returning(before), Attempt(call.key, Some(call.answer)));
    assert Returning(before + [call]) == Returning(before) + [Attempt(call.key, Some(call.answer))];
  }

  lemma {:induction false} LastAttempt(maxsize: Option<nat>, d: Items, calls: seq<Attempt>, a: Attempt)
    ensures Attempts(maxsize, d, calls + [a]) == Attempted(maxsize, Attempts(maxsize, d, calls), a)
    decreases |calls|
  {
    if calls == [] {
      assert [] + [a] == [a] && [a][1..] == [];
    } else {
      assert (calls + [a])[0] == calls[0] && (calls + [a])[1..] == calls[1..] + [a];
      LastAttempt(maxsize, Attempted(maxsize, d, calls[0]), calls[1..], a);
    }
  }

  lemma MissStep(maxsize: Option<nat>, d: Items, call: Call)
    requires Settled(maxsize, d) && maxsize != Some(0) && call.key !in d.cells
    ensures var d' := Attempted(maxsize, d, Attempt(call.key, Some(call.answer)));
            Settled(maxsize, d') && Memo(d') == After(maxsize, Memo(d), call)
  {
    var d' := Attempted(maxsize, d, Attempt(call.key, Some(call.answer)));
    MissItems(maxsize, d, call);
    AttemptKeeps(maxsize, d, Attempt(call.key, Some(call.answer)));
    MissOrder(maxsize, d.order, call.key, d'.order);
    MissMemo(maxsize, d, call, d');
  }

  lemma MissMemo(maxsize: Option<nat>, d: Items, call: Call, d': Items)
    requires Settled(maxsize, d) && call.key !in d.order && Kept(maxsize, d') && d'.currsize == |d'.order|
    requires d'.order == Newest(maxsize, Touch(d.order, call.key)) && d'.hits == d.hits && d'.misses == d.misses + 1
    requires forall k :: k in d'.cells ==> k == call.key || k in d.cells
    requires forall k :: k in d'.cells ==> d'.cells[k] == if k == call.key then Some(call.answer) else
                                             if k in d.cells then d.cells[k] else None
    ensures Settled(maxsize, d') && Memo(d') == After(maxsize, Memo(d), call)
  {
    MissValues(maxsize, Memo(d), call, d'.order, Memo(d').values);
  }

  lemma MissItems(maxsize: Option<nat>, d: Items, call: Call)
    requires Settled(maxsize, d) && maxsize != Some(0) && call.key !in d.cells
    ensures var d' := Attempted(maxsize, d, Attempt(call.key, Some(call.answer)));
            && d'.order == (if Popping(maxsize, d.order) then (d.order + [call.key])[1..] else d.order + [call.key])
            && (forall k :: k in d'.cells ==> d'.cells[k] == if k == call.key then Some(call.answer) else
                                                if k in d.cells then d.cells[k] else None)
            && (forall k :: k in d'.cells ==> k == call.key || k in d.cells)
            && d'.currsize == |d'.order| && d'.hits == d.hits && d'.misses == d.misses + 1
  {
    var e := Entered(maxsize, d, call.key);
    assert AtSize(maxsize, d) ==> d.order != [] && (d.order + [call.key])[0] == d.order[0] != call.key;
    assert call.key in e.cells;
  }

  lemma MissValues(maxsize: Option<nat>, c: Cache, call: Call, order': seq<Key>, values': map<Key, Value>)
    requires call.key !in c.order && order' == Newest(maxsize, Touch(c.order, call.key))
    requires forall k :: k in order' <==> k in values'
    requires forall k :: k in values' ==>
                           values'[k] == if k == call.key || k !in c.values then call.answer else c.values[k]
    ensures Cache(order', values', c.hits, c.misses + 1) == After(maxsize, c, call)
  {
    assert values' == After(maxsize, c, call).values;
  }

  // ----- one call among the tasks ---------------------------------------------------------------

  function Ending(t: Task, answer: Option<Value>): Event {
    if answer.Some? then Finish(t, answer.value) else Fail(t)
  }

  /** A task that calls while no other call is in flight: it begins, gets the lock on a miss, and returns or raises. */
  function Alone(s: State, t: Task, a: Attempt): Option<State> {
    match Step(s, Begin(t, a.key))
    case None => None
    case Some(s1) =>
      if t in s1.calls && s1.calls[t].Returned? then Some(s1)
      else if t in s1.calls && s1.calls[t].Bypassing? then Step(s1, Ending(t, a.answer))
      else if Step(s1, Acquire(t)).None? then None
      else Step(Step(s1, Acquire(t)).value, Ending(t, a.answer))
  }

  function Seen(s: State): Items {
    Items(s.order, map k | k in s.cells :: if s.cells[k].Full? then Some(s.cells[k].value) else None,
          s.hits, s.misses, s.currsize)
  }

  /** With no lock held the steps of one task are one call of the wrapper, and they leave no lock held. */
  lemma CallsAlike(s: State, t: Task, a: Attempt)
    requires s.holder == map[] && t !in s.calls && Kept(s.maxsize, Seen(s))
    ensures var s' := Alone(s, t, a);
            && s'.Some? && s'.value.holder == map[] && t in s'.value.calls
            && Seen(s'.value) == Attempted(s.maxsize, Seen(s), a)
            && s'.value.calls[t] == match Result(Seen(s), a)
                                    case Some(v) => Returned(a.key, v)
                                    case None => Failed(a.key, true)
  {
    assert Seen(s).cells.Keys == s.cells.Keys;
    if s.maxsize != Some(0) && !Holds(Seen(s), a.key) { MissAlike(s, t, a); }
  }

  lemma MissAlike(s: State, t: Task, a: Attempt)
    requires s.holder == map[] && t !in s.calls && Kept(s.maxsize, Seen(s))
    requires s.maxsize != Some(0) && !Holds(Seen(s), a.key)
    ensures var s' := Alone(s, t, a);
            && s'.Some? && s'.value.holder == map[] && t in s'.value.calls
            && Seen(s'.value) == Attempted(s.maxsize, Seen(s), a)
            && s'.value.calls[t] == match a.answer
                                    case Some(v) => Returned(a.key, v)
                                    case None => Failed(a.key, true)
  {
    var s1 := MissBegins(s, t, a.key);
    var s2 := MissEnters(s1, t);
    MissEnds(s2, t, a.answer);
    assert Alone(s, t, a) == Step(s2, Ending(t, a.answer));
  }

  lemma MissEnds(s: State, t: Task, answer: Option<Value>)
    requires t in s.calls && s.calls[t].Computing? && s.holder == map[s.calls[t].lock := t]
    ensures var s' := Step(s, Ending(t, answer)).value;
            && s'.holder == map[] && t in s'.calls
            && (answer.None? ==> Seen(s') == Seen(s) && s'.calls[t] == Failed(s.calls[t].key, true))
            && (answer.Some? ==> && Seen(s') == Stored(Seen(s), s.calls[t].key, answer.value)
                                 && s'.calls[t] == Returned(s.calls[t].key, answer.value))
  {
    if answer.Some? { MissReturns(s, t, answer.value); } else { MissRaises(s, t); }
  }

  lemma MissBegins(s: State, t: Task, k: Key) returns (s1: State)
    requires s.holder == map[] && t !in s.calls && Kept(s.maxsize, Seen(s))
    requires s.maxsize != Some(0) && !Holds(Seen(s), k)
    ensures Step(s, Begin(t, k)) == Some(s1) && s1.maxsize == s.maxsize && s1.holder == map[]
    ensures t in s1.calls && s1.calls[t].Waiting? && s1.calls[t].key == k && k in s1.cells && s1.cells[k].Empty?
    ensures Seen(s1) == WithEntry(Seen(s), k) && s1.order != []
  {
    s1 := Step(s, Begin(t, k)).value;
    assert k in s.cells ==> k in Seen(s).cells && k in s.order;
    if k !in s.cells { assert Seen(s1).cells == Seen(s).cells[k := None]; }
  }

  lemma MissEnters(s: State, t: Task) returns (s1: State)
    requires t in s.calls && s.calls[t].Waiting? && s.calls[t].key in s.cells && s.cells[s.calls[t].key].Empty?
    requires s.holder == map[] && s.order != []
    ensures Step(s, Acquire(t)) == Some(s1) && s1.maxsize == s.maxsize
    ensures t in s1.calls && s1.calls[t] == Computing(s.calls[t].key, s.calls[t].lock)
    ensures s1.holder == map[s.calls[t].lock := t]
    ensures Seen(s1) == Entered(s.maxsize, Seen(s), s.calls[t].key)
  {
    s1 := Step(s, Acquire(t)).value;
    if s.maxsize.Some? && s.currsize >= s.maxsize.value {
      assert Seen(s1).cells == Seen(s).cells - {s.order[0]};
    }
  }

  lemma MissReturns(s: State, t: Task, v: Value)
    requires t in s.calls && s.calls[t].Computing? && s.holder == map[s.calls[t].lock := t]
    ensures var s' := Step(s, Finish(t, v)).value;
            && Seen(s') == Stored(Seen(s), s.calls[t].key, v) && s'.holder == map[]
            && t in s'.calls && s'.calls[t] == Returned(s.calls[t].key, v)
  {
    assert s.holder - {s.calls[t].lock} == map[];
    assert Seen(Step(s, Finish(t, v)).value).cells == Seen(s).cells[s.calls[t].key := Some(v)];
  }

  lemma MissRaises(s: State, t: Task)
    requires t in s.calls && s.calls[t].Computing? && s.holder == map[s.calls[t].lock := t]
    ensures var s' := Step(s, Fail(t)).value;
            && Seen(s') == Seen(s) && s'.holder == map[]
            && t in s'.calls && s'.calls[t] == Failed(s.calls[t].key, true)
  {
    assert s.holder - {s.calls[t].lock} == map[];
  }

  lemma InvokeFacts(maxsize: Option<nat>, d: Items, key: Key, answer: Option<Value>)
    requires Kept(maxsize, d)
    ensures var d' := Attempted(maxsize, d, Attempt(key, answer));
            && Kept(maxsize, d')
            && (Settled(maxsize, d) && answer.Some? ==>
                  Settled(maxsize, d') && Memo(d') == After(maxsize, Memo(d), Call(key, answer.value)))
  {
    AttemptKeeps(maxsize, d, Attempt(key, answer));
    if Settled(maxsize, d) && answer.Some? { MemoStep(maxsize, d, Call(key, answer.value)); }
  }

  // ----- the wrapper ----------------------------------------------------------------------------

  class Wrapper {
    const maxsize: Option<nat>
    var order: seq<Key>
    var cells: map<Key, Option<Value>>
    var hits: nat
    var misses: nat
    var currsize: nat

    function State(): Items
      reads this
    {
      Items(order, cells, hits, misses, currsize)
    }

    ghost predicate Valid()
      reads this
    {
      Kept(maxsize, State())
    }

    constructor (size: Option<int>)
      ensures Valid() && State() == EMPTY
      ensures maxsize == match size case None => None case Some(n) => Some(if n < 0 then 0 else n)
    {
      maxsize := match size case None => None case Some(n) => Some(if n < 0 then 0 else n);
      order, cells, hits, misses, currsize := [], map[], 0, 0, 0;
    }

    /**
     A call that nothing overlaps; answer is what the wrapped function returns if it is called, or None if it raises,
     and so is the value of the call.
     */
    method Invoke(key: Key, answer: Option<Value>) returns (value: Option<Value>)
      requires Valid()
      modifies this
      ensures Valid()
      ensures State() == Attempted(maxsize, old(State()), Attempt(key, answer))
      ensures value == Result(old(State()), Attempt(key, answer))
      ensures old(Settled(maxsize, State())) && answer.Some? ==>
                && Settled(maxsize, State())
                && Memo(State()) == After(maxsize, old(Memo(State())), Call(key, answer.value))
    {
      InvokeFacts(maxsize, State(), key, answer);
      if maxsize == Some(0) {
        if answer.Some? { misses := misses + 1; }
        return answer;
      }
      if key in cells && cells[key].Some? {
        hits := hits + 1;
        order := Touch(order, key);
        return cells[key];
      }
      Miss(key, answer);
      return answer;
    }

    /** The entry is made without a value if there is none, room is made for it, and an answer fills it. */
    method Miss(key: Key, answer: Option<Value>)
      requires Valid() && maxsize != Some(0) && !Holds(State(), key)
      modifies this
      ensures State() == match answer
                         case None => Entered(maxsize, old(State()), key)
                         case Some(v) => Stored(Entered(maxsize, old(State()), key), key, v)
    {
      if key !in cells {
        order, cells := order + [key], cells[key := None];
      }
      assert key in order;
      misses := misses + 1;
      if maxsize.Some? && currsize >= maxsize.value {
        order, cells := order[1..], cells - {order[0]};
      } else {
        currsize := currsize + 1;
      }
      assert State() == Entered(maxsize, old(State()), key);
      if answer.Some? {
        order, cells := if key in cells then order else order + [key], cells[key := answer];
      }
    }
  }
}
