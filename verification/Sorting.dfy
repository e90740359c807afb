/** Python's sorted on strings and on pairs of strings: the result depends only on what is sorted. */
module Sorting {

  function Insert<T>(le: (T, T) -> bool, x: T, s: seq<T>): seq<T> {
    if s == [] || le(x, s[0]) then [x] + s else [s[0]] + Insert(le, x, s[1..])
  }

  function Sorted<T>(le: (T, T) -> bool, s: seq<T>): seq<T> {
    if s == [] then [] else Insert(le, s[0], Sorted(le, s[1..]))
  }

  ghost predicate Total<T(!new)>(le: (T, T) -> bool) {
    && (forall x, y :: le(x, y) || le(y, x))
    && (forall x, y :: le(x, y) && le(y, x) ==> x == y)
    && (forall x, y, z :: le(x, y) && le(y, z) ==> le(x, z))
  }

  ghost predicate InOrder<T(!new)>(le: (T, T) -> bool, s: seq<T>) {
    forall i, j :: 0 <= i < j < |s| ==> le(s[i], s[j])
  }

  lemma FirstInOrder<T(!new)>(le: (T, T) -> bool, x: T, s: seq<T>)
    requires InOrder(le, s) && forall y :: y in s ==> le(x, y)
    ensures InOrder(le, [x] + s)
  {
  }

  lemma RestAfter<T(!new)>(le: (T, T) -> bool, s: seq<T>)
    requires InOrder(le, s) && s != []
    ensures InOrder(le, s[1..]) && forall y :: y in s[1..] ==> le(s[0], y)
  {
    forall y | y in s[1..] ensures le(s[0], y) {
      var j :| 0 <= j < |s| - 1 && s[1..][j] == y;
      assert s[j + 1] == y;
    }
  }

  lemma {:induction false} InsertKeeps<T(!new)>(le: (T, T) -> bool, x: T, s: seq<T>)
    requires Total(le) && InOrder(le, s)
    ensures InOrder(le, Insert(le, x, s))
    ensures multiset(Insert(le, x, s)) == multiset(s) + multiset{x}
  {
    if s == [] || le(x, s[0]) {
      assert multiset([x] + s) == multiset{x} + multiset(s);
    } else {
      InsertKeeps(le, x, s[1..]);
      var rest := Insert(le, x, s[1..]);
      assert s == [s[0]] + s[1..];
      RestAfter(le, s);
      forall y | y in rest ensures le(s[0], y) {
        assert y in multiset(rest);
        assert y == x || y in s[1..];
      }
      FirstInOrder(le, s[0], rest);
    }
  }

  lemma {:induction false} SortedIs<T(!new)>(le: (T, T) -> bool, s: seq<T>)
    requires Total(le)
    ensures InOrder(le, Sorted(le, s)) && multiset(Sorted(le, s)) == multiset(s)
  {
    if s != [] {
      SortedIs(le, s[1..]);
      InsertKeeps(le, s[0], Sorted(le, s[1..]));
      assert s == [s[0]] + s[1..];
    }
  }

  lemma {:induction false} OneOrder<T(!new)>(le: (T, T) -> bool, a: seq<T>, b: seq<T>)
    requires Total(le) && InOrder(le, a) && InOrder(le, b) && multiset(a) == multiset(b)
    ensures a == b
  {
    assert |a| == |multiset(a)| == |multiset(b)| == |b|;
    if a != [] {
      SameFirst(le, a, b);
      assert a == [a[0]] + a[1..] && b == [b[0]] + b[1..];
      assert multiset(a[1..]) == multiset(a) - multiset{a[0]};
      assert multiset(b[1..]) == multiset(b) - multiset{b[0]};
      OneOrder(le, a[1..], b[1..]);
    }
  }

  lemma SameFirst<T(!new)>(le: (T, T) -> bool, a: seq<T>, b: seq<T>)
    requires Total(le) && InOrder(le, a) && InOrder(le, b) && multiset(a) == multiset(b) && a != [] && b != []
    ensures a[0] == b[0]
  {
    assert a[0] in multiset(b) && b[0] in multiset(a);
    var i :| 0 <= i < |b| && b[i] == a[0];
    var j :| 0 <= j < |a| && a[j] == b[0];
    assert le(b[0], b[i]) && le(a[0], a[j]);
  }

  /** Sorting a permutation gives the same list. */
  lemma SortedSame<T(!new)>(le: (T, T) -> bool, a: seq<T>, b: seq<T>)
    requires Total(le) && multiset(a) == multiset(b)
    ensures Sorted(le, a) == Sorted(le, b)
  {
    SortedIs(le, a);
    SortedIs(le, b);
    OneOrder(le, Sorted(le, a), Sorted(le, b));
  }

  // ----- strings and pairs ----------------------------------------------------------------------

  predicate StringLe(s: string, t: string) {
    s == "" || (t != "" && (s[0] < t[0] || (s[0] == t[0] && StringLe(s[1..], t[1..]))))
  }

  datatype Pair = Pair(key: string, value: string)

  predicate PairLe(p: Pair, q: Pair) {
    if p.key == q.key then StringLe(p.value, q.value) else StringLe(p.key, q.key)
  }

  lemma {:induction false} StringLeOne(s: string, t: string)
    ensures StringLe(s, t) || StringLe(t, s)
    ensures StringLe(s, t) && StringLe(t, s) ==> s == t
  {
    if s != "" && t != "" {
      StringLeOne(s[1..], t[1..]);
      assert s == [s[0]] + s[1..] && t == [t[0]] + t[1..];
    }
  }

  lemma {:induction false} StringLeTrans(s: string, t: string, u: string)
    requires StringLe(s, t) && StringLe(t, u)
    ensures StringLe(s, u)
  {
    if s != "" && s[0] == t[0] == u[0] { StringLeTrans(s[1..], t[1..], u[1..]); }
  }

  lemma StringsTotal()
    ensures Total(StringLe)
  {
    forall s, t { StringLeOne(s, t); }
    forall s, t, u | StringLe(s, t) && StringLe(t, u) { StringLeTrans(s, t, u); }
  }

  lemma PairLeOne(p: Pair, q: Pair)
    ensures PairLe(p, q) || PairLe(q, p)
    ensures PairLe(p, q) && PairLe(q, p) ==> p == q
  {
    StringLeOne(p.key, q.key);
    StringLeOne(p.value, q.value);
  }

  lemma PairLeTrans(p: Pair, q: Pair, r: Pair)
    requires PairLe(p, q) && PairLe(q, r)
    ensures PairLe(p, r)
  {
    if p.key == q.key == r.key {
      StringLeTrans(p.value, q.value, r.value);
    } else if p.key != q.key && q.key != r.key {
      StringLeTrans(p.key, q.key, r.key);
      StringLeOne(p.key, q.key);
    }
  }

  lemma PairsTotal()
    ensures Total(PairLe)
  {
    forall p, q ensures PairLe(p, q) || PairLe(q, p) ensures PairLe(p, q) && PairLe(q, p) ==> p == q {
      PairLeOne(p, q);
    }
    forall p, q, r | PairLe(p, q) && PairLe(q, r) ensures PairLe(p, r) { PairLeTrans(p, q, r); }
  }
}
