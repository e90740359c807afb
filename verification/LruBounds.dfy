/** When a bounded cache keeps what an unbounded one keeps: the exact size for the keys and failures there may be. */
module LruBounds {
  import opened Collections
  import opened Outcomes
  import opened LruTasks

  /** The calls begin for keys of K only. */
  ghost predicate KeysIn(es: seq<Event>, K: set<Key>) {
    forall i :: 0 <= i < |es| && es[i].Begin? ==> es[i].key in K
  }

  function Failures(es: seq<Event>): nat {
    if es == [] then 0 else (if es[0].Fail? then 1 else 0) + Failures(es[1..])
  }

  /**
   The states of a cache of size n in runs with calls for keys of K and at most f calls that fail inside the function.
   */
  ghost predicate Reaches(n: nat, K: set<Key>, f: nat, s: State) {
    exists es :: Run(Init(Some(n)), es) == Some(s) && KeysIn(es, K) && Failures(es) <= f
  }

  /** No two tasks are inside the wrapped function for one key. */
  ghost predicate OneEach(s: State) {
    forall t, t' :: t in s.calls && t' in s.calls && s.calls[t].Computing? && s.calls[t'].Computing? && t != t' ==>
      s.calls[t].key != s.calls[t'].key
  }

  ghost predicate Settled(s: State) {
    forall t :: t in s.calls ==> !InFlight(s.calls[t])
  }

  lemma {:induction false} RunConcat(s: State, a: seq<Event>, b: seq<Event>)
    requires Run(s, a).Some?
    ensures Run(s, a + b) == Run(Run(s, a).value, b)
    decreases |a|
  {
    if a == [] {
      assert a + b == b;
    } else {
      assert (a + b)[1..] == a[1..] + b;
      RunConcat(Step(s, a[0]).value, a[1..], b);
    }
  }

  lemma {:induction false} FailuresMore(es: seq<Event>, e: Event)
    ensures Failures(es + [e]) == Failures(es) + (if e.Fail? then 1 else 0)
  {
    if es == [] {
      assert [] + [e] == [e] && [e][1..] == [];
    } else {
      assert (es + [e])[1..] == es[1..] + [e];
      FailuresMore(es[1..], e);
    }
  }

  lemma RunMore(s: State, es: seq<Event>, e: Event)
    requires Run(s, es).Some?
    ensures Run(s, es + [e]) == Step(Run(s, es).value, e)
  {
    RunConcat(s, es, [e]);
    var m := Run(s, es).value;
    assert [e][1..] == [];
    if Step(m, e).Some? { assert Run(m, [e]) == Run(Step(m, e).value, []); }
  }

  lemma Then(n: nat, K: set<Key>, f: nat, s: State, e: Event, s': State)
    requires Reaches(n, K, f, s) && Step(s, e) == Some(s') && (e.Begin? ==> e.key in K)
    ensures Reaches(n, K, if e.Fail? then f + 1 else f, s')
  {
    var es :| Run(Init(Some(n)), es) == Some(s) && KeysIn(es, K) && Failures(es) <= f;
    RunMore(Init(Some(n)), es, e);
    FailuresMore(es, e);
    assert Run(Init(Some(n)), es + [e]) == Some(s') && KeysIn(es + [e], K)
           && Failures(es + [e]) <= if e.Fail? then f + 1 else f;
  }

  // ----- large enough ---------------------------------------------------------------------------

  function Unbounded(s: State): State {
    s.(maxsize := None)
  }

  /** The state is one of an unbounded cache, but for the size, and the calls are for keys of K. */
  ghost predicate Like(n: nat, K: set<Key>, s: State) {
    && s.maxsize == Some(n) && Inv(Unbounded(s))
    && (forall t :: t in s.calls ==> s.calls[t].key in K)
    && s.cells.Keys <= K
  }

  /** A miss finds room: the function has begun for fewer keys, and once more for each failure. */
  lemma FindsRoom(n: nat, K: set<Key>, s: State, t: Task)
    requires Like(n, K, s) && Step(s, Acquire(t)).Some?
    requires s.calls[t].key in s.cells && s.cells[s.calls[t].key].Empty?
    requires |K| + |s.raised| <= n
    ensures s.currsize < n
  {
    var u, k := Unbounded(s), s.calls[t].key;
    assert Step(u, Acquire(t)).Some?;
    MissBusy(u, t);
    FewerMembers(Busy(u) + {k}, K);
    assert |s.started| == |s.raised| + |Busy(u)|;
  }

  lemma OtherLike(s: State, e: Event)
    requires !e.Acquire? && s.maxsize != Some(0) && Step(s, e).Some?
    ensures Step(Unbounded(s), e) == Some(Unbounded(Step(s, e).value))
  {
  }

  lemma StepLike(n: nat, K: set<Key>, s: State, e: Event)
    requires n > 0 && Like(n, K, s) && Step(s, e).Some? && (e.Begin? ==> e.key in K)
    requires |K| + |s.raised| <= n
    ensures Like(n, K, Step(s, e).value)
    ensures Step(Unbounded(s), e) == Some(Unbounded(Step(s, e).value))
    ensures |Step(s, e).value.raised| == |s.raised| + (if e.Fail? then 1 else 0)
  {
    var s', u := Step(s, e).value, Unbounded(s);
    if e.Acquire? {
      AcquireLike(n, K, s, e.t);
    } else {
      OtherLike(s, e);
    }
    StepInv(u, e);
    StepKeys(n, K, s, e);
  }

  lemma AcquireLike(n: nat, K: set<Key>, s: State, t: Task)
    requires Like(n, K, s) && Step(s, Acquire(t)).Some? && |K| + |s.raised| <= n
    ensures Step(Unbounded(s), Acquire(t)) == Some(Unbounded(Step(s, Acquire(t)).value))
  {
    var k := s.calls[t].key;
    if k in s.cells && s.cells[k].Empty? { FindsRoom(n, K, s, t); }
  }

  lemma StepKeys(n: nat, K: set<Key>, s: State, e: Event)
    requires n > 0 && s.maxsize == Some(n) && Step(s, e).Some? && (e.Begin? ==> e.key in K)
    requires (forall t :: t in s.calls ==> s.calls[t].key in K) && s.cells.Keys <= K
    ensures var s' := Step(s, e).value;
            s'.maxsize == Some(n) && (forall t :: t in s'.calls ==> s'.calls[t].key in K) && s'.cells.Keys <= K
  {
  }

  /** Nothing is evicted as long as there is room for one beginning for each key and one for each failure. */
  lemma {:induction false} RunLike(n: nat, K: set<Key>, s: State, es: seq<Event>)
    requires n > 0 && Like(n, K, s) && KeysIn(es, K) && |K| + |s.raised| + Failures(es) <= n && Run(s, es).Some?
    ensures Like(n, K, Run(s, es).value) && Run(Unbounded(s), es) == Some(Unbounded(Run(s, es).value))
    decreases |es|
  {
    if es != [] {
      StepLike(n, K, s, es[0]);
      RunLike(n, K, Step(s, es[0]).value, es[1..]);
    }
  }

  /** So a cache with that much room goes through the states of an unbounded one. */
  lemma SameAsUnbounded(n: nat, K: set<Key>, es: seq<Event>)
    requires n > 0 && |K| + Failures(es) <= n && KeysIn(es, K) && Run(Init(Some(n)), es).Some?
    ensures Run(Init(None), es) == Some(Unbounded(Run(Init(Some(n)), es).value))
  {
    InitLike(n, K);
    RunsAlike(n, K, Init(Some(n)), Init(None), es);
  }

  lemma RunsAlike(n: nat, K: set<Key>, s: State, u: State, es: seq<Event>)
    requires n > 0 && Like(n, K, s) && u == Unbounded(s) && KeysIn(es, K) && s.raised == multiset{}
    requires |K| + Failures(es) <= n && Run(s, es).Some?
    ensures Run(u, es) == Some(Unbounded(Run(s, es).value))
  {
    RunLike(n, K, s, es);
  }

  lemma InitLike(n: nat, K: set<Key>)
    ensures Like(n, K, Init(Some(n))) && Init(Some(n)).raised == multiset{} && Unbounded(Init(Some(n))) == Init(None)
  {
    InitInv();
  }

  lemma {:induction false} KeysOnly(n: nat, K: set<Key>, s: State, es: seq<Event>)
    requires n > 0 && s.maxsize == Some(n) && KeysIn(es, K) && Run(s, es).Some?
    requires (forall t :: t in s.calls ==> s.calls[t].key in K) && s.cells.Keys <= K
    ensures var s' := Run(s, es).value; (forall t :: t in s'.calls ==> s'.calls[t].key in K) && s'.cells.Keys <= K
    decreases |es|
  {
    if es != [] {
      StepKeys(n, K, s, es[0]);
      KeysOnly(n, K, Step(s, es[0]).value, es[1..]);
    }
  }

  // ----- not large enough -----------------------------------------------------------------------

  /** A task that no call has used. */
  lemma Unused(s: State) returns (t: Task)
    ensures t !in s.calls
  {
    t := Above(s.calls.Keys);
  }

  lemma {:induction false} Above(ts: set<Task>) returns (t: Task)
    ensures forall u :: u in ts ==> u < t
  {
    t := 0;
    if ts != {} {
      var u :| u in ts;
      t := Above(ts - {u});
      t := if t <= u then u + 1 else t;
      assert ts == (ts - {u}) + {u};
    }
  }

  /** Only failed calls for k so far, and every one of them has been counted. */
  ghost predicate OnlyFailed(s: State, n: nat, k: Key, i: nat) {
    && s.maxsize == Some(n) && s.currsize == i && s.holder == map[]
    && (forall t :: t in s.calls ==> s.calls[t].Failed?)
    && s.order == (if i == 0 then [] else [k]) && s.cells.Keys == (if i == 0 then {} else {k})
    && (i > 0 ==> s.cells[k].Empty? && s.cells[k].lock < |s.madeFor|)
  }

  /** A call for k that waits for the lock of its entry. */
  lemma Begins(n: nat, K: set<Key>, f: nat, s: State, k: Key) returns (t: Task, s': State)
    requires n > 0 && Reaches(n, K, f, s) && s.maxsize == Some(n) && k in K
    requires k in s.cells ==> s.cells[k].Empty?
    ensures t !in s.calls && Reaches(n, K, f, s') && s' == Start(s, t, k)
    ensures k in s'.cells && s'.cells[k].Empty? && s'.calls == s.calls[t := Waiting(k, s'.cells[k].lock)]
    ensures s'.order == if k in s.cells then s.order else s.order + [k]
    ensures s'.cells == if k in s.cells then s.cells else s.cells[k := Empty(|s.madeFor|)]
    ensures s'.holder == s.holder && s'.currsize == s.currsize && s'.maxsize == s.maxsize
    ensures |s'.madeFor| == |s.madeFor| + (if k in s.cells then 0 else 1)
  {
    t := Unused(s);
    s' := Start(s, t, k);
    Then(n, K, f, s, Begin(t, k), s');
  }

  lemma {:induction false} Fails(n: nat, K: set<Key>, k: Key, i: nat) returns (s: State)
    requires n > 0 && k in K && i <= n
    ensures Reaches(n, K, i, s) && OnlyFailed(s, n, k, i)
  {
    if i == 0 {
      s := Init(Some(n));
      assert Run(s, []) == Some(s) && KeysIn([], K) && Failures([]) == 0;
    } else {
      var s0 := Fails(n, K, k, i - 1);
      s := FailsOnce(n, K, k, i, s0);
    }
  }

  lemma FailsOnce(n: nat, K: set<Key>, k: Key, i: nat, s0: State) returns (s: State)
    requires k in K && 0 < i <= n && Reaches(n, K, i - 1, s0) && OnlyFailed(s0, n, k, i - 1)
    ensures Reaches(n, K, i, s) && OnlyFailed(s, n, k, i)
  {
    var t, s1 := Begins(n, K, i - 1, s0, k);
    var s2 := Acquires(n, K, i - 1, s1, t, k);
    s := FailIs(s2, t);
    Then(n, K, i - 1, s2, Fail(t), s);
    Overwritten(s0.calls, t, s1.calls[t], s2.calls[t]);
    Overwritten(s0.calls, t, s2.calls[t], s.calls[t]);
    TakenOut(s0.holder, s2.calls[t].lock, t);
    FailedOnly(n, k, i, s0, t, s1, s);
  }

  lemma FailIs(s: State, t: Task) returns (s': State)
    requires t in s.calls && s.calls[t].Computing?
    ensures Step(s, Fail(t)) == Some(s') && s'.calls == s.calls[t := Failed(s.calls[t].key, true)]
    ensures s'.holder == s.holder - {s.calls[t].lock} && s'.order == s.order && s'.cells == s.cells
    ensures s'.currsize == s.currsize && s'.maxsize == s.maxsize && s'.madeFor == s.madeFor
  {
    s' := Step(s, Fail(t)).value;
  }

  lemma Overwritten(calls: map<Task, Place>, t: Task, p: Place, q: Place)
    ensures calls[t := p][t := q] == calls[t := q]
  {
  }

  lemma TakenOut(holder: map<Lock, Task>, l: Lock, t: Task)
    requires l !in holder
    ensures holder[l := t] - {l} == holder
  {
  }

  lemma FailedOnly(n: nat, k: Key, i: nat, s0: State, t: Task, s1: State, s: State)
    requires 0 < i <= n && OnlyFailed(s0, n, k, i - 1) && t !in s0.calls && k in s1.cells && s1.cells[k].Empty?
    requires s1.cells == if k in s0.cells then s0.cells else s0.cells[k := Empty(|s0.madeFor|)]
    requires |s1.madeFor| == |s0.madeFor| + (if k in s0.cells then 0 else 1)
    requires s.order == (if k in s0.cells then s0.order else s0.order + [k]) && s.cells == s1.cells
    requires s.calls == s0.calls[t := Failed(k, true)] && s.holder == map[] && s.madeFor == s1.madeFor
    requires s.maxsize == Some(n) && s.currsize == s0.currsize + 1
    ensures OnlyFailed(s, n, k, i)
  {
    assert s0.cells.Keys == if i == 1 then {} else {k};
  }

  ghost predicate Computed(s: State, k: Key) {
    exists t :: t in s.calls && s.calls[t].Computing? && s.calls[t].key == k
  }

  /** Nobody waits, and locks are numbered as they are made. */
  ghost predicate NoneWaits(s: State, n: nat) {
    && s.maxsize == Some(n) && (forall l :: l in s.holder ==> l < |s.madeFor|)
    && (forall t :: t in s.calls ==> s.calls[t].Computing? || s.calls[t].Failed?)
  }

  /** After c failures the function has begun for the first j keys and is still in all of them. */
  ghost predicate Filling(s: State, n: nat, ks: seq<Key>, c: nat, j: nat)
    requires j <= |ks|
  {
    && NoneWaits(s, n) && s.currsize == c + j && s.order == ks[..j]
    && (forall k :: k in s.cells <==> k in ks[..j]) && (forall k :: k in s.cells ==> s.cells[k].Empty?)
    && (forall i :: 0 <= i < j ==> Computed(s, ks[i]))
  }

  /** The first key has been evicted while its function call goes on. */
  ghost predicate Lost(s: State, n: nat, ks: seq<Key>)
    requires ks != []
  {
    && NoneWaits(s, n) && s.currsize == n && ks[0] !in s.cells
    && (forall i :: 0 <= i < |ks| ==> Computed(s, ks[i]))
    && (forall i :: 1 <= i < |ks| ==> ks[i] in s.cells)
  }

  lemma StillComputed(s: State, s': State, t: Task, k: Key)
    requires Computed(s, k) && t !in s.calls && t in s'.calls && s'.calls == s.calls[t := s'.calls[t]]
    ensures Computed(s', k)
  {
    var u :| u in s.calls && s.calls[u].Computing? && s.calls[u].key == k;
    assert u in s'.calls && s'.calls[u] == s.calls[u];
  }

  /** A new key is begun and entered; its lock is new. */
  lemma Enters(n: nat, K: set<Key>, f: nat, s: State, k: Key) returns (t: Task, s': State)
    requires n > 0 && Reaches(n, K, f, s) && NoneWaits(s, n) && k in K
    requires k !in s.cells || (s.cells[k].Empty? && s.cells[k].lock !in s.holder && s.cells[k].lock < |s.madeFor|)
    ensures t !in s.calls && Reaches(n, K, f, s') && NoneWaits(s', n)
    ensures t in s'.calls && s'.calls == s.calls[t := s'.calls[t]] && s'.calls[t].Computing? && s'.calls[t].key == k
    ensures var (order, cells) := if k in s.cells then (s.order, s.cells)
                                  else (s.order + [k], s.cells[k := Empty(|s.madeFor|)]);
            if s.currsize >= n && order != []
            then s'.order == order[1..] && s'.cells == cells - {order[0]} && s'.currsize == s.currsize
            else s'.order == order && s'.cells == cells && s'.currsize == s.currsize + 1
  {
    var s1;
    t, s1 := Begins(n, K, f, s, k);
    s' := Acquires(n, K, f, s1, t, k);
    Overwritten(s.calls, t, s1.calls[t], s'.calls[t]);
    NoneStillWaits(s, s', n, t, k, s1.cells[k].lock);
  }

  /** What getting the lock of an entry without a value changes. */
  lemma EnterIs(s: State, n: nat, t: Task, k: Key)
    requires s.maxsize == Some(n) && k in s.cells && s.cells[k].Empty?
    ensures var (l, s') := (s.cells[k].lock, Enter(s, t, k, s.cells[k].lock));
            && s'.calls == s.calls[t := Computing(k, l)] && s'.holder == s.holder[l := t]
            && s'.madeFor == s.madeFor && s'.maxsize == s.maxsize
            && (if s.currsize >= n && s.order != []
                then s'.order == s.order[1..] && s'.cells == s.cells - {s.order[0]} && s'.currsize == s.currsize
                else s'.order == s.order && s'.cells == s.cells && s'.currsize == s.currsize + 1)
  {
  }

  lemma Acquires(n: nat, K: set<Key>, f: nat, s: State, t: Task, k: Key) returns (s': State)
    requires Reaches(n, K, f, s) && s.maxsize == Some(n) && k in s.cells && s.cells[k].Empty?
    requires t in s.calls && s.calls[t] == Waiting(k, s.cells[k].lock) && s.cells[k].lock !in s.holder
    ensures Reaches(n, K, f, s') && s' == Enter(s, t, k, s.cells[k].lock)
    ensures var l := s.cells[k].lock;
            && s'.calls == s.calls[t := Computing(k, l)] && s'.holder == s.holder[l := t]
            && s'.madeFor == s.madeFor && s'.maxsize == s.maxsize
            && (if s.currsize >= n && s.order != []
                then s'.order == s.order[1..] && s'.cells == s.cells - {s.order[0]} && s'.currsize == s.currsize
                else s'.order == s.order && s'.cells == s.cells && s'.currsize == s.currsize + 1)
  {
    EnterIs(s, n, t, k);
    s' := Enter(s, t, k, s.cells[k].lock);
    Then(n, K, f, s, Acquire(t), s');
  }

  lemma NoneStillWaits(s: State, s': State, n: nat, t: Task, k: Key, l: Lock)
    requires NoneWaits(s, n) && s'.maxsize == Some(n) && s'.calls == s.calls[t := Computing(k, l)]
    requires s'.holder == s.holder[l := t] && l < |s'.madeFor| && |s.madeFor| <= |s'.madeFor|
    ensures NoneWaits(s', n)
  {
  }

  lemma {:induction false} Fills(n: nat, K: set<Key>, ks: seq<Key>, c: nat, j: nat) returns (s: State)
    requires Distinct(ks) && 0 < j <= |ks| && c + j <= n && forall i :: 0 <= i < |ks| ==> ks[i] in K
    ensures Reaches(n, K, c, s) && Filling(s, n, ks, c, j)
  {
    if j == 1 {
      var s0 := Fails(n, K, ks[0], c);
      assert c > 0 ==> s0.cells.Keys == {ks[0]};
      var t;
      t, s := Enters(n, K, c, s0, ks[0]);
      assert ks[..1] == [ks[0]];
    } else {
      var s0 := Fills(n, K, ks, c, j - 1);
      var t;
      t, s := Enters(n, K, c, s0, ks[j - 1]);
      FilledOnce(n, ks, c, j, s0, t, s);
    }
  }

  lemma FilledOnce(n: nat, ks: seq<Key>, c: nat, j: nat, s0: State, t: Task, s: State)
    requires Distinct(ks) && 1 < j <= |ks| && Filling(s0, n, ks, c, j - 1) && NoneWaits(s, n) && t !in s0.calls
    requires t in s.calls && s.calls == s0.calls[t := s.calls[t]] && s.calls[t].Computing?
             && s.calls[t].key == ks[j - 1]
    requires s.order == s0.order + [ks[j - 1]] && s.cells == s0.cells[ks[j - 1] := Empty(|s0.madeFor|)]
    requires s.currsize == s0.currsize + 1
    ensures Filling(s, n, ks, c, j)
  {
    assert ks[..j] == ks[..j - 1] + [ks[j - 1]];
    forall i | 0 <= i < j ensures Computed(s, ks[i]) {
      if i < j - 1 { StillComputed(s0, s, t, ks[i]); }
    }
  }

  /** One key more than there is room for after the failures, and the key begun first is evicted. */
  lemma Loses(n: nat, K: set<Key>, ks: seq<Key>, c: nat) returns (s: State)
    requires n > 0 && ks != [] && Distinct(ks) && c + |ks| == n + 1 && forall i :: 0 <= i < |ks| ==> ks[i] in K
    ensures Reaches(n, K, c, s) && Lost(s, n, ks)
  {
    var m := |ks| - 1;
    var t;
    if m == 0 {
      var s0 := Fails(n, K, ks[0], c);
      t, s := Enters(n, K, c, s0, ks[0]);
    } else {
      var s0 := Fills(n, K, ks, c, m);
      t, s := Enters(n, K, c, s0, ks[m]);
      assert ks[..m][0] == ks[0];
      forall i | 0 <= i < |ks| ensures Computed(s, ks[i]) {
        if i < m { StillComputed(s0, s, t, ks[i]); }
      }
      forall i | 1 <= i < |ks| ensures ks[i] in s.cells {
        if i < m { assert ks[i] in ks[..m]; }
      }
    }
  }

  /** So the next call for it computes it a second time. */
  lemma ComputesTwice(n: nat, K: set<Key>, ks: seq<Key>, c: nat) returns (s: State)
    requires n > 0 && ks != [] && Distinct(ks) && c + |ks| == n + 1 && forall i :: 0 <= i < |ks| ==> ks[i] in K
    ensures Reaches(n, K, c, s) && !OneEach(s)
  {
    var s0 := Loses(n, K, ks, c);
    assert Computed(s0, ks[0]);
    var u :| u in s0.calls && s0.calls[u].Computing? && s0.calls[u].key == ks[0];
    var t;
    t, s := Enters(n, K, c, s0, ks[0]);
    assert s.calls[u] == s0.calls[u] && u != t;
  }

  function Insiders(s: State): set<Task> {
    set t | t in s.calls && s.calls[t].Computing?
  }

  /** When all computations return, their keys join the entries. */
  lemma {:induction false} FinishAll(n: nat, K: set<Key>, f: nat, s: State) returns (s': State)
    requires Reaches(n, K, f, s) && forall t :: t in s.calls ==> !s.calls[t].Waiting?
    ensures Reaches(n, K, f, s') && Settled(s')
    ensures forall k :: k in s.cells || Computed(s, k) ==> k in s'.cells
    decreases |Insiders(s)|
  {
    if t :| t in s.calls && s.calls[t].Computing? {
      var s1 := Step(s, Finish(t, 0)).value;
      Then(n, K, f, s, Finish(t, 0), s1);
      assert Insiders(s1) == Insiders(s) - {t} && t in Insiders(s);
      forall k | k in s.cells || Computed(s, k) ensures k in s1.cells || Computed(s1, k) {
        if k !in s1.cells {
          var u :| u in s.calls && s.calls[u].Computing? && s.calls[u].key == k;
          assert u in s1.calls && s1.calls[u] == s.calls[u];
        }
      }
      s' := FinishAll(n, K, f, s1);
    } else {
      s' := s;
    }
  }

  lemma {:induction false} Listed(ks: seq<Key>, a: set<Key>)
    requires Distinct(ks) && forall i :: 0 <= i < |ks| ==> ks[i] in a
    ensures |ks| <= |a|
  {
    if ks != [] {
      Listed(ks[1..], a - {ks[0]});
    }
  }

  lemma {:induction false} Chosen(K: set<Key>, m: nat) returns (ks: seq<Key>)
    requires m <= |K|
    ensures |ks| == m && Distinct(ks) && forall i :: 0 <= i < m ==> ks[i] in K
  {
    ks := [];
    if m > 0 {
      var k :| k in K;
      var rest := Chosen(K - {k}, m - 1);
      ks := [k] + rest;
    }
  }

  // ----- exactly --------------------------------------------------------------------------------

  /**
   Every run with calls for keys of K, at most f of which fail inside the function, has at most one task inside it for
   each key, exactly if the size is at least the number of keys and failures together (or there are no calls at all).
   */
  lemma OneAtATimeExactly(n: nat, K: set<Key>, f: nat)
    requires n > 0
    ensures (forall s :: Reaches(n, K, f, s) ==> OneEach(s)) <==> K == {} || |K| + f <= n
  {
    if K == {} {
      forall s | Reaches(n, K, f, s) ensures OneEach(s) {
        var es :| Run(Init(Some(n)), es) == Some(s) && KeysIn(es, K) && Failures(es) <= f;
        KeysOnly(n, K, Init(Some(n)), es);
      }
    } else if |K| + f <= n {
      forall s | Reaches(n, K, f, s) ensures OneEach(s) {
        var es :| Run(Init(Some(n)), es) == Some(s) && KeysIn(es, K) && Failures(es) <= f;
        SameAsUnbounded(n, K, es);
        forall t, t' | t in s.calls && t' in s.calls && s.calls[t].Computing? && s.calls[t'].Computing? && t != t'
          ensures s.calls[t].key != s.calls[t'].key
        {
          if s.calls[t].key == s.calls[t'].key { OneAtATime(es, t, t'); }
        }
      }
    } else {
      var c := if f <= n then f else n;
      var ks := Chosen(K, n + 1 - c);
      var s := ComputesTwice(n, K, ks, c);
      Fewer(n, K, c, f, s);
    }
  }

  lemma Fewer(n: nat, K: set<Key>, c: nat, f: nat, s: State)
    requires c <= f && Reaches(n, K, c, s)
    ensures Reaches(n, K, f, s)
  {
    var es :| Run(Init(Some(n)), es) == Some(s) && KeysIn(es, K) && Failures(es) <= c;
  }

  /**
   No run with calls for keys of K, whatever fails, has more entries than the size, exactly if there are no more keys;
   with one key more there can be too many even after all calls have returned, none of them failed.
   */
  lemma EntriesExactly(n: nat, K: set<Key>)
    requires n > 0
    ensures (forall f, s :: Reaches(n, K, f, s) ==> |s.cells| <= n) <==> |K| <= n
    ensures (forall s :: Reaches(n, K, 0, s) && Settled(s) ==> |s.cells| <= n) <==> |K| <= n
  {
    if |K| <= n {
      forall f, s | Reaches(n, K, f, s) ensures |s.cells| <= n {
        var es :| Run(Init(Some(n)), es) == Some(s) && KeysIn(es, K) && Failures(es) <= f;
        KeysOnly(n, K, Init(Some(n)), es);
        FewerMembers(s.cells.Keys, K);
      }
    } else {
      var ks := Chosen(K, n + 1);
      var s0 := Loses(n, K, ks, 0);
      var s := FinishAll(n, K, 0, s0);
      forall i | 0 <= i < |ks| ensures ks[i] in s.cells.Keys { assert Computed(s0, ks[i]); }
      Listed(ks, s.cells.Keys);
      assert |s.cells| == |s.cells.Keys| > n;
    }
  }
}
