/** Where the conditions of the round trip hold, seen from the documents themselves. */
module Domains {
  import opened Outcomes
  import opened Text
  import opened Pointers
  import opened Documents
  import opened Patches
  import opened Diffs
  import opened Holes
  import opened Moves

  // ----- plain member names ---------------------------------------------------------------

  predicate PlainName(n: string) {
    n != "" && '/' !in n && PyInt(n).None?
  }

  /** Every member name of every object outside lists is plain. */
  ghost predicate PlainNames(doc: Json) {
    doc.Obj? ==> forall n :: n in doc.members ==> PlainName(n) && PlainNames(doc.members[n])
  }

  predicate PlainPointer(p: Pointer) {
    forall i :: 0 <= i < |p| ==> p[i] != "" && '/' !in p[i]
  }

  lemma {:induction false} JoinInjective(p: Pointer, q: Pointer)
    requires PlainPointer(p) && PlainPointer(q) && PathText(p) == PathText(q)
    ensures p == q
    decreases |p|
  {
    if p == [] || q == [] {
      assert p == [] ==> PathText(q) == "";
      assert q == [] ==> PathText(p) == "";
    } else {
      HeadOfJoin(p, q);
      assert p == [p[0]] + p[1..] && q == [q[0]] + q[1..];
      if |p| > 1 && |q| > 1 {
        JoinInjective(p[1..], q[1..]);
      }
    }
  }

  /** The first token ends where the first '/' is. */
  lemma HeadOfJoin(p: Pointer, q: Pointer)
    requires p != [] && q != [] && PlainPointer(p) && PlainPointer(q) && PathText(p) == PathText(q)
    ensures p[0] == q[0] && (|p| == 1 <==> |q| == 1) && (|p| > 1 ==> PathText(p[1..]) == PathText(q[1..]))
  {
    var s := PathText(p);
    var a, b := p[0], q[0];
    assert s[..|a|] == a && s[..|b|] == b;
    assert |a| < |s| ==> s[|a|] == '/';
    assert |b| < |s| ==> s[|b|] == '/';
    assert forall k :: 0 <= k < |a| ==> s[k] == a[k] != '/';
    assert forall k :: 0 <= k < |b| ==> s[k] == b[k] != '/';
    assert |a| == |b|;
    if |p| > 1 && |q| > 1 {
      assert s[|a| + 1..] == PathText(p[1..]) && s[|b| + 1..] == PathText(q[1..]);
    }
  }

  lemma {:induction false} HolesPlain(p: Pointer, src: Json, dst: Json, h: Pointer)
    requires PlainNames(src) && PlainNames(dst) && h in AllHoles(p, src, dst) && PlainPointer(p)
    ensures PlainPointer(h)
    ensures h in MemberHoles(p, src, dst) ==> h != [] && PyInt(Last(h)).None?
    decreases src
  {
    if src.Obj? && dst.Obj? {
      HoleCases(p, src, dst, h);
      var n := h[|p|];
      if n in src.members && n in dst.members {
        PlainChild(src, n);
        PlainChild(dst, n);
        PlainLonger(p, n);
        HolesPlain(p + [n], src.members[n], dst.members[n], h);
      } else {
        assert h == p + [n] && PlainName(n);
        PlainLonger(p, n);
      }
    }
  }

  lemma PlainChild(doc: Json, n: string)
    requires PlainNames(doc) && doc.Obj? && n in doc.members
    ensures PlainName(n) && PlainNames(doc.members[n])
  {
  }

  lemma PlainLonger(p: Pointer, n: string)
    requires PlainPointer(p) && PlainName(n)
    ensures PlainPointer(p + [n])
  {
  }

  lemma PlainSeparable(src: Json, dst: Json)
    requires PlainNames(src) && PlainNames(dst)
    ensures Separable(src, dst)
  {
    var L, M := ListHoles([], src, dst), MemberHoles([], src, dst);
    forall c, c' | c in L && c' in L && PathText(c) == PathText(c')
      ensures c == c'
    {
      HolesPlain([], src, dst, c);
      HolesPlain([], src, dst, c');
      JoinInjective(c, c');
    }
    forall q | q in M
      ensures q != [] && PyInt(Last(q)).None?
    {
      HolesPlain([], src, dst, q);
    }
    forall c, q | c in L && q in M
      ensures PathText(Front(q)) != PathText(c)
    {
      HolesPlain([], src, dst, c);
      HolesPlain([], src, dst, q);
      if PathText(Front(q)) == PathText(c) {
        JoinInjective(Front(q), c);
        HolesPrefixFree([], src, dst, c, q);
      }
    }
  }

  lemma {:induction false} PlainKeys(src: Json, dst: Json)
    requires PlainNames(src)
    ensures KeyedLost(src, dst) == {}
    decreases src
  {
    if src.Obj? && dst.Obj? {
      forall n | n in src.members && n in dst.members ensures KeyedLost(src.members[n], dst.members[n]) == {} {
        PlainKeys(src.members[n], dst.members[n]);
      }
    }
  }

  /** With plain names, the round trip needs only that no value lost by a list is gained as a member. */
  lemma PlainRoundTrip(order: Order, src: Json, dst: Json)
    requires Complete(order) && Aligned(src, dst) && PlainNames(src) && PlainNames(dst)
    requires MembersGained(src, dst) !! ListTaken(src, dst)
    ensures FromDiff(order, src, dst).Ok?
    ensures Apply(src, FromDiff(order, src, dst).value) == Ok(dst) <==> NoDash(ReplacedHoles([], src, dst))
  {
    PlainSeparable(src, dst);
    PlainKeys(src, dst);
    DisjointRoundTrip(order, src, dst);
  }

  // ----- lists of scalars, whatever the names ------------------------------------------------

  predicate FlatList(doc: Json) {
    doc.Arr? && forall i :: 0 <= i < |doc.items| ==> doc.items[i].Num?
  }

  /** Two lists of scalars, or two objects with the same names and lists of scalars under them. */
  ghost predicate FlatPair(src: Json, dst: Json) {
    || (FlatList(src) && FlatList(dst))
    || (src.Obj? && dst.Obj? && src.members.Keys == dst.members.Keys
        && forall n :: n in src.members ==> FlatList(src.members[n]) && FlatList(dst.members[n]))
  }

  lemma FlatHoles(src: Json, dst: Json, h: Pointer)
    requires FlatPair(src, dst) && h in AllHoles([], src, dst)
    ensures h in ListHoles([], src, dst) && h !in MemberHoles([], src, dst) && h !in ValueHoles([], src, dst)
    ensures if src.Arr? then h == [] else |h| == 1
  {
    if src.Obj? {
      HoleCases([], src, dst, h);
    }
  }

  lemma FlatSeparable(src: Json, dst: Json)
    requires FlatPair(src, dst)
    ensures Separable(src, dst)
  {
    forall c, c' | c in ListHoles([], src, dst) && c' in ListHoles([], src, dst) && PathText(c) == PathText(c')
      ensures c == c'
    {
      FlatHoles(src, dst, c);
      FlatHoles(src, dst, c');
      if src.Obj? {
        assert c == [c[0]] && c' == [c'[0]];
      }
    }
    forall q | q in MemberHoles([], src, dst)
      ensures false
    {
      FlatHoles(src, dst, q);
    }
  }

  lemma FlatAligned(src: Json, dst: Json)
    requires FlatPair(src, dst)
    ensures Aligned(src, dst) && MembersGained(src, dst) == {} && KeyedLost(src, dst) == {}
  {
    if src.Obj? {
      forall n | n in src.members
        ensures Aligned(src.members[n], dst.members[n]) && MembersGained(src.members[n], dst.members[n]) == {}
        ensures KeyedLost(src.members[n], dst.members[n]) == {}
      {
      }
    }
  }

  /** Duplicates, moves within a list and moves between lists included; any member names at all. */
  lemma FlatRoundTrip(order: Order, src: Json, dst: Json)
    requires Complete(order) && FlatPair(src, dst)
    ensures FromDiff(order, src, dst).Ok?
    ensures Apply(src, FromDiff(order, src, dst).value) == Ok(dst)
  {
    FlatSeparable(src, dst);
    FlatAligned(src, dst);
    forall q | q in ReplacedHoles([], src, dst)
      ensures false
    {
      ReplacedAreValues([], src, dst);
      FlatHoles(src, dst, q);
    }
    DisjointRoundTrip(order, src, dst);
  }
}
