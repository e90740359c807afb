/** The cache of a coroutine function as calls that do not overlap see it: each call ends before the next begins. */
module LruCache {
  import opened Collections
  import opened Outcomes
  import opened LruTasks

  /** The cached values with the most recently used key last, and the two counters. */
  datatype Cache = Cache(order: seq<Key>, values: map<Key, Value>, hits: nat, misses: nat)

  datatype Call = Call(key: Key, answer: Value)

  function Newest(maxsize: Option<nat>, s: seq<Key>): seq<Key> {
    if maxsize.Some? && maxsize.value < |s| then s[|s| - maxsize.value..] else s
  }

  /** One call of a reference LRU memo: answer is what the wrapped function returns if it has to be called. */
  function After(maxsize: Option<nat>, c: Cache, call: Call): Cache {
    var order := Newest(maxsize, Touch(c.order, call.key));
    if call.key in c.order && call.key in c.values
    then c.(order := order, hits := c.hits + 1)
    else Cache(order, map k | k in order :: if k == call.key || k !in c.values then call.answer else c.values[k],
               c.hits, c.misses + 1)
  }

  function Answered(c: Cache, call: Call): Value {
    if call.key in c.values then c.values[call.key] else call.answer
  }

  function Calls(maxsize: Option<nat>, calls: seq<Call>): Cache {
    if calls == [] then Cache([], map[], 0, 0)
    else After(maxsize, Calls(maxsize, calls[..|calls| - 1]), calls[|calls| - 1])
  }

  /** The distinct keys of a history of calls in the order of their last use. */
  function Recency(calls: seq<Call>): seq<Key> {
    if calls == [] then [] else Touch(Recency(calls[..|calls| - 1]), calls[|calls| - 1].key)
  }

  // ----- the ordered dictionary -----------------------------------------------------------------

  lemma {:induction false} DropKeeps(s: seq<Key>, k: Key)
    requires Distinct(s)
    ensures Distinct(Drop(s, k)) && k !in Drop(s, k)
    ensures forall x :: x in Drop(s, k) <==> x in s && x != k
    ensures |Drop(s, k)| == |s| - (if k in s then 1 else 0)
  {
    if s != [] {
      if s[0] == k {
        assert forall x :: x in s <==> x == k || x in s[1..];
      } else {
        DropKeeps(s[1..], k);
        var d := Drop(s[1..], k);
        assert forall x :: x in s <==> x == s[0] || x in s[1..];
        assert Drop(s, k) == [s[0]] + d;
        assert s[0] !in s[1..];
      }
    }
  }

  lemma {:induction false} DropMissing(s: seq<Key>, k: Key)
    requires k !in s
    ensures Drop(s, k) == s
  {
    if s != [] { DropMissing(s[1..], k); }
  }

  lemma {:induction false} DropConcat(a: seq<Key>, b: seq<Key>, k: Key)
    ensures Drop(a + b, k) == if k in a then Drop(a, k) + b else a + Drop(b, k)
  {
    if a == [] {
      assert a + b == b;
    } else {
      assert (a + b)[1..] == a[1..] + b;
      if a[0] != k { DropConcat(a[1..], b, k); }
    }
  }

  lemma TouchFront(a: seq<Key>, b: seq<Key>, k: Key)
    requires Distinct(a + b) && k in a
    ensures Touch(a + b, k) == Drop(a, k) + (b + [k]) && Touch(b, k) == b + [k]
  {
    var i :| 0 <= i < |a| && a[i] == k;
    forall j | 0 <= j < |b| ensures b[j] != k { assert (a + b)[|a| + j] == b[j] && (a + b)[i] == k; }
    DropConcat(a, b, k);
    DropMissing(b, k);
  }

  /** The stack property of LRU: what is outside the newest keys never matters for them again. */
  lemma NewestTouch(maxsize: Option<nat>, s: seq<Key>, k: Key)
    requires Distinct(s)
    ensures Newest(maxsize, Touch(Newest(maxsize, s), k)) == Newest(maxsize, Touch(s, k))
  {
    if maxsize.Some? && maxsize.value < |s| {
      var n := maxsize.value;
      var a, b := s[..|s| - n], s[|s| - n..];
      assert s == a + b;
      if k in a {
        TouchFront(a, b, k);
        DropKeeps(a, k);
      } else {
        TouchBack(a, b, k);
      }
    }
  }

  lemma TouchBack(a: seq<Key>, b: seq<Key>, k: Key)
    requires Distinct(b) && k !in a
    ensures Touch(a + b, k) == a + Touch(b, k) && |Touch(b, k)| >= |b|
  {
    DropConcat(a, b, k);
    DropKeeps(b, k);
  }

  predicate Popping(maxsize: Option<nat>, order: seq<Key>) {
    maxsize.Some? && |order| >= maxsize.value
  }

  /** The order after a miss, with the oldest key popped when the cache was full. */
  lemma MissOrder(maxsize: Option<nat>, s: seq<Key>, k: Key, now: seq<Key>)
    requires Distinct(s) && k !in s
    requires maxsize.Some? ==> |s| <= maxsize.value && 0 < maxsize.value
    requires now == if Popping(maxsize, s) then (s + [k])[1..] else s + [k]
    ensures now == Newest(maxsize, Touch(s, k))
    ensures |now| == |s| + (if Popping(maxsize, s) then 0 else 1)
    ensures Distinct(now)
    ensures forall x :: x in now <==> (x in s && !(Popping(maxsize, s) && x == s[0])) || x == k
  {
    DropMissing(s, k);
    var all := s + [k];
    assert Distinct(all);
    assert forall x :: x in all <==> x == all[0] || x in all[1..];
    assert forall x :: x in all <==> x in s || x == k;
  }

  lemma NewestKeeps(maxsize: Option<nat>, s: seq<Key>)
    requires Distinct(s)
    ensures Distinct(Newest(maxsize, s))
    ensures forall k :: k in Newest(maxsize, s) ==> k in s
  {
  }

  lemma TouchKeeps(s: seq<Key>, k: Key)
    requires Distinct(s)
    ensures Distinct(Touch(s, k))
    ensures forall x :: x in Touch(s, k) <==> x in s || x == k
  {
    DropKeeps(s, k);
    var d := Drop(s, k);
    forall i, j | 0 <= i < j < |d| + 1 ensures Touch(s, k)[i] != Touch(s, k)[j] {
      assert i < |d| ==> d[i] in d;
    }
  }

  lemma {:induction false} RecencyDistinct(calls: seq<Call>)
    ensures Distinct(Recency(calls))
  {
    if calls != [] {
      RecencyDistinct(calls[..|calls| - 1]);
      TouchKeeps(Recency(calls[..|calls| - 1]), calls[|calls| - 1].key);
    }
  }

  // ----- runs of calls --------------------------------------------------------------------------

  /** After any calls the cache holds exactly the last maxsize distinct keys, in the order of their last use. */
  lemma {:induction false} HoldsNewest(maxsize: Option<nat>, calls: seq<Call>)
    ensures Calls(maxsize, calls).order == Newest(maxsize, Recency(calls))
    ensures Distinct(Calls(maxsize, calls).order)
    ensures forall k :: k in Calls(maxsize, calls).order <==> k in Calls(maxsize, calls).values
  {
    RecencyDistinct(calls);
    NewestKeeps(maxsize, Recency(calls));
    if calls != [] {
      var before, call := calls[..|calls| - 1], calls[|calls| - 1];
      HoldsNewest(maxsize, before);
      RecencyDistinct(before);
      var c := Calls(maxsize, before);
      NewestTouch(maxsize, Recency(before), call.key);
      if call.key in c.order {
        DropKeeps(c.order, call.key);
        TouchKeeps(c.order, call.key);
        assert |Touch(c.order, call.key)| == |c.order|;
        assert Newest(maxsize, Touch(c.order, call.key)) == Touch(c.order, call.key);
      }
    }
  }

  /** The call that computed the cached value of a key: the last one that found the key absent. */
  ghost predicate LastMiss(maxsize: Option<nat>, calls: seq<Call>, k: Key, j: nat) {
    && j < |calls| && calls[j].key == k && k !in Newest(maxsize, Recency(calls[..j]))
    && (forall i :: j < i <= |calls| ==> k in Newest(maxsize, Recency(calls[..i])))
  }

  /** A cached value is the answer given to the last call that missed; it has been kept ever since. */
  lemma {:induction false} ValueOfLastMiss(maxsize: Option<nat>, calls: seq<Call>, k: Key)
    requires k in Calls(maxsize, calls).values
    ensures exists j: nat :: LastMiss(maxsize, calls, k, j) && Calls(maxsize, calls).values[k] == calls[j].answer
  {
    HoldsNewest(maxsize, calls);
    var before, call := calls[..|calls| - 1], calls[|calls| - 1];
    HoldsNewest(maxsize, before);
    var c := Calls(maxsize, before);
    assert calls[..|calls|] == calls;
    if k == call.key && k !in c.values {
      assert LastMiss(maxsize, calls, k, |calls| - 1);
    } else {
      if k !in c.values {
        TouchKeeps(c.order, call.key);
        NewestKeeps(maxsize, Touch(c.order, call.key));
        assert false;
      }
      ValueOfLastMiss(maxsize, before, k);
      var j: nat :| LastMiss(maxsize, before, k, j) && c.values[k] == before[j].answer;
      StillLastMiss(maxsize, calls, k, j);
    }
  }

  lemma PrefixOfPrefix(calls: seq<Call>, n: nat, i: nat)
    requires i <= n <= |calls|
    ensures calls[..n][..i] == calls[..i]
  {
  }

  lemma StillLastMiss(maxsize: Option<nat>, calls: seq<Call>, k: Key, j: nat)
    requires calls != [] && LastMiss(maxsize, calls[..|calls| - 1], k, j) && k in Newest(maxsize, Recency(calls))
    ensures LastMiss(maxsize, calls, k, j)
  {
    var n := |calls| - 1;
    PrefixOfPrefix(calls, n, j);
    forall i | j < i <= |calls| ensures k in Newest(maxsize, Recency(calls[..i])) {
      if i < |calls| { PrefixOfPrefix(calls, n, i); } else { assert calls[..i] == calls; }
    }
  }

  /** Caching cannot be told from not caching when the wrapped function gives equal answers to equal keys. */
  lemma Transparent(maxsize: Option<nat>, calls: seq<Call>, next: Call)
    requires forall i, j :: 0 <= i < j < |calls| + 1 && (calls + [next])[i].key == (calls + [next])[j].key ==>
               (calls + [next])[i].answer == (calls + [next])[j].answer
    ensures Answered(Calls(maxsize, calls), next) == next.answer
  {
    var c := Calls(maxsize, calls);
    if next.key in c.values {
      ValueOfLastMiss(maxsize, calls, next.key);
      var j: nat :| LastMiss(maxsize, calls, next.key, j) && c.values[next.key] == calls[j].answer;
      assert (calls + [next])[j] == calls[j] && (calls + [next])[|calls|] == next;
    }
  }

  /** A call is a hit exactly when its key is among the newest keys of the calls before it. */
  lemma HitsTheNewest(maxsize: Option<nat>, calls: seq<Call>, next: Call)
    ensures var hit := next.key in Newest(maxsize, Recency(calls));
            var (before, after) := (Calls(maxsize, calls), Calls(maxsize, calls + [next]));
            && after.hits == before.hits + (if hit then 1 else 0)
            && after.misses == before.misses + (if hit then 0 else 1)
  {
    HoldsNewest(maxsize, calls);
    assert (calls + [next])[..|calls|] == calls;
  }

  /** Every call is counted once. */
  lemma {:induction false} Counts(maxsize: Option<nat>, calls: seq<Call>)
    ensures Calls(maxsize, calls).hits + Calls(maxsize, calls).misses == |calls|
  {
    if calls != [] { Counts(maxsize, calls[..|calls| - 1]); }
  }

  lemma NewestInclusion(small: Option<nat>, large: Option<nat>, s: seq<Key>, k: Key)
    requires large.None? || (small.Some? && small.value <= large.value)
    requires k in Newest(small, s)
    ensures k in Newest(large, s)
  {
    var i :| 0 <= i < |Newest(small, s)| && Newest(small, s)[i] == k;
    assert k == Newest(large, s)[i + |Newest(large, s)| - |Newest(small, s)|];
  }

  /** A larger cache holds all that a smaller one holds and never misses more often. */
  lemma {:induction false} MoreRoomFewerMisses(small: Option<nat>, large: Option<nat>, calls: seq<Call>)
    requires large.None? || (small.Some? && small.value <= large.value)
    ensures Calls(large, calls).misses <= Calls(small, calls).misses
    ensures forall k :: k in Calls(small, calls).values ==> k in Calls(large, calls).values
  {
    HoldsNewest(small, calls);
    HoldsNewest(large, calls);
    forall k | k in Calls(small, calls).values ensures k in Calls(large, calls).values {
      NewestInclusion(small, large, Recency(calls), k);
    }
    if calls != [] {
      var before, call := calls[..|calls| - 1], calls[|calls| - 1];
      MoreRoomFewerMisses(small, large, before);
      HoldsNewest(small, before);
      HoldsNewest(large, before);
      MissesOnce(small, Calls(small, before), call);
      MissesOnce(large, Calls(large, before), call);
    }
  }

  lemma MissesOnce(maxsize: Option<nat>, c: Cache, call: Call)
    ensures After(maxsize, c, call).misses == c.misses + (if call.key in c.order && call.key in c.values then 0 else 1)
  {
  }
}
