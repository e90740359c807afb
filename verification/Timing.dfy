/**
 Which additions the comparison of two documents may take for the ends of moves: the condition of the round trip on
 removals that are not renumbered, or should not be.
 */
module Timing {
  import opened Outcomes
  import opened Text
  import opened Pointers
  import opened Documents
  import opened Rewriting
  import opened Diffs
  import opened Recording
  import opened Holes

  /** The additions of members. */
  ghost predicate AddsTimely(d: Places, es: seq<Entry>, p: Pointer, names: seq<string>, dst: map<string, Json>)
    requires forall n :: n in names ==> n in dst
    decreases |names|
  {
    names != [] ==>
      && Timely(d, es, false, dst[names[0]])
      && var next := Added(es, p + [names[0]], false, dst[names[0]]);
         next.Ok? ==> AddsTimely(d, next.value, p, names[1..], dst)
  }

  /** The addition at position key of two lists that hold no different objects or lists there. */
  ghost predicate ElementTimely(d: Places, es: seq<Entry>, p: Pointer, key: nat, src: Json, dst: Json)
    requires src.Arr? && dst.Arr?
  {
    key < |dst.items| && !(key < |src.items| && SameAt(src, dst, key)) ==>
      var next := if key < |src.items| then Removed(es, p + [Dec(key)], src.items[key], d.dst) else Ok(es);
      next.Ok? ==> Timely(d, next.value, true, dst.items[key])
  }

  ghost predicate ListsTimely(order: Order, d: Places, es: seq<Entry>, p: Pointer, key: nat, src: Json, dst: Json)
    requires Complete(order) && src.Arr? && dst.Arr?
    decreases Max(|src.items|, |dst.items|) - key
  {
    key < Max(|src.items|, |dst.items|) ==>
      && ElementTimely(d, es, p, key, src, dst)
      && var next := CompareElement(order, d.dst, es, p, key, src, dst);
         next.Ok? ==> ListsTimely(order, d, next.value, p, key + 1, src, dst)
  }

  ghost predicate DictsTimely(order: Order, d: Places, es: seq<Entry>, p: Pointer, src: Json, dst: Json)
    requires Complete(order) && src.Obj? && dst.Obj?
    decreases src, 2, 0
  {
    var gone, come := order(p, src.members.Keys - dst.members.Keys), order(p, dst.members.Keys - src.members.Keys);
    var both := order(p, src.members.Keys * dst.members.Keys);
    var removed := RemoveMembers(es, p, gone, src.members, d.dst);
    removed.Ok? ==>
      && AddsTimely(d, removed.value, p, come, dst.members)
      && var added := AddMembers(removed.value, p, come, dst.members);
         added.Ok? ==> MembersTimely(order, d, added.value, p, both, src, dst)
  }

  ghost predicate MembersTimely(order: Order, d: Places, es: seq<Entry>, p: Pointer, names: seq<string>, src: Json,
                                dst: Json)
    requires Complete(order) && src.Obj? && dst.Obj? && forall n :: n in names ==> Common(src, dst, n)
    decreases src, 1, |names|
  {
    names != [] ==>
      var n := names[0];
      assert Common(src, dst, n);
      && ValuesTimely(order, d, es, p + [n], src.members[n], dst.members[n])
      && var next := CompareValues(order, d.dst, es, p + [n], src.members[n], dst.members[n]);
         next.Ok? ==> MembersTimely(order, d, next.value, p, names[1..], src, dst)
  }

  /** Every addition of the comparison at p is timely, from the recorded operations es on. */
  ghost predicate ValuesTimely(order: Order, d: Places, es: seq<Entry>, p: Pointer, src: Json, dst: Json)
    requires Complete(order)
    decreases src, 3, 0
  {
    if src.Obj? && dst.Obj? then DictsTimely(order, d, es, p, src, dst)
    else if src.Arr? && dst.Arr? then ListsTimely(order, d, es, p, 0, src, dst)
    else true
  }

  // ----- documents for which it holds in every order --------------------------------------------

  /** No value that a list loses is gained as a member, and none that a list gains is lost under an integer's name. */
  ghost predicate Disjoint(d: Places, src: Json, dst: Json) {
    MembersGained(src, dst) !! d.taken && ListGained(src, dst) !! d.keyed
  }

  lemma {:induction false} DisjointAdds(d: Places, es: seq<Entry>, p: Pointer, names: seq<string>,
                                        dst: map<string, Json>)
    requires forall n :: n in names ==> n in dst && dst[n] !in d.taken
    ensures AddsTimely(d, es, p, names, dst)
    decreases |names|
  {
    if names != [] {
      var next := Added(es, p + [names[0]], false, dst[names[0]]);
      if next.Ok? { DisjointAdds(d, next.value, p, names[1..], dst); }
    }
  }

  lemma {:induction false} DisjointLists(order: Order, d: Places, es: seq<Entry>, p: Pointer, key: nat, src: Json,
                                         dst: Json)
    requires Complete(order) && src.Arr? && dst.Arr? && Disjoint(d, src, dst)
    ensures ListsTimely(order, d, es, p, key, src, dst)
    decreases Max(|src.items|, |dst.items|) - key
  {
    if key < Max(|src.items|, |dst.items|) {
      if key < |dst.items| && !(key < |src.items| && SameAt(src, dst, key)) {
        assert dst.items[key] in ListGained(src, dst);
      }
      var next := CompareElement(order, d.dst, es, p, key, src, dst);
      if next.Ok? { DisjointLists(order, d, next.value, p, key + 1, src, dst); }
    }
  }

  lemma {:induction false} DisjointMembers(order: Order, d: Places, es: seq<Entry>, p: Pointer, names: seq<string>,
                                           src: Json, dst: Json)
    requires Complete(order) && src.Obj? && dst.Obj? && forall n :: n in names ==> Common(src, dst, n)
    requires Disjoint(d, src, dst)
    ensures MembersTimely(order, d, es, p, names, src, dst)
    decreases src, 1, |names|
  {
    if names != [] {
      var n := names[0];
      ChildHolesWithin(p, src, dst, n);
      DisjointValues(order, d, es, p + [n], src.members[n], dst.members[n]);
      var next := CompareValues(order, d.dst, es, p + [n], src.members[n], dst.members[n]);
      if next.Ok? { DisjointMembers(order, d, next.value, p, names[1..], src, dst); }
    }
  }

  lemma {:induction false} DisjointValues(order: Order, d: Places, es: seq<Entry>, p: Pointer, src: Json, dst: Json)
    requires Complete(order) && Disjoint(d, src, dst)
    ensures ValuesTimely(order, d, es, p, src, dst)
    decreases src, 3, 0
  {
    if src.Obj? && dst.Obj? {
      DisjointDicts(order, d, es, p, src, dst);
    } else if src.Arr? && dst.Arr? {
      DisjointLists(order, d, es, p, 0, src, dst);
    }
  }

  lemma {:induction false} DisjointDicts(order: Order, d: Places, es: seq<Entry>, p: Pointer, src: Json, dst: Json)
    requires Complete(order) && src.Obj? && dst.Obj? && Disjoint(d, src, dst)
    ensures DictsTimely(order, d, es, p, src, dst)
    decreases src, 2, 0
  {
    var gone, come := order(p, src.members.Keys - dst.members.Keys), order(p, dst.members.Keys - src.members.Keys);
    var both := order(p, src.members.Keys * dst.members.Keys);
    var removed := RemoveMembers(es, p, gone, src.members, d.dst);
    if removed.Ok? {
      assert forall n :: n in come ==> dst.members[n] in MembersGained(src, dst);
      DisjointAdds(d, removed.value, p, come, dst.members);
      var added := AddMembers(removed.value, p, come, dst.members);
      if added.Ok? { DisjointMembers(order, d, added.value, p, both, src, dst); }
    }
  }
}
