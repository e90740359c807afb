/**
 The places where two documents are compared as wholes: the recursion of the diff goes through the objects
 both have, and stops at lists, at members only one of them has, and at values of any other pairing.
 */
module Holes {
  import opened Text
  import opened Pointers
  import opened Documents

  predicate Common(src: Json, dst: Json, n: string)
    requires src.Obj? && dst.Obj?
  {
    n in src.members && n in dst.members
  }

  ghost function ListHoles(p: Pointer, src: Json, dst: Json): set<Pointer>
    decreases src
  {
    if src.Obj? && dst.Obj? then
      set n, h | n in src.members && n in dst.members && h in ListHoles(p + [n], src.members[n], dst.members[n]) :: h
    else if src.Arr? && dst.Arr? then {p}
    else {}
  }

  ghost function MemberHoles(p: Pointer, src: Json, dst: Json): set<Pointer>
    decreases src
  {
    if src.Obj? && dst.Obj? then
      (set n | n in src.members.Keys + dst.members.Keys && !Common(src, dst, n) :: p + [n])
      + set n, h | n in src.members && n in dst.members
                   && h in MemberHoles(p + [n], src.members[n], dst.members[n]) :: h
    else {}
  }

  ghost function ValueHoles(p: Pointer, src: Json, dst: Json): set<Pointer>
    decreases src
  {
    if src.Obj? && dst.Obj? then
      set n, h | n in src.members && n in dst.members && h in ValueHoles(p + [n], src.members[n], dst.members[n]) :: h
    else if src.Arr? && dst.Arr? then {}
    else {p}
  }

  /** The value holes where the documents differ: what the diff replaces. */
  ghost function ReplacedHoles(p: Pointer, src: Json, dst: Json): set<Pointer>
    decreases src
  {
    if src.Obj? && dst.Obj? then
      set n, h | n in src.members && n in dst.members
                 && h in ReplacedHoles(p + [n], src.members[n], dst.members[n]) :: h
    else if src.Arr? && dst.Arr? then {}
    else if src == dst then {}
    else {p}
  }

  ghost function AllHoles(p: Pointer, src: Json, dst: Json): set<Pointer> {
    ListHoles(p, src, dst) + MemberHoles(p, src, dst) + ValueHoles(p, src, dst)
  }

  /** Position i of a list keeps its value. */
  predicate SameAt(src: Json, dst: Json, i: nat)
    requires src.Arr? && dst.Arr? && i < |src.items|
  {
    i < |dst.items| && src.items[i] == dst.items[i]
  }

  /** The values that lists lose, position by position. */
  ghost function ListTaken(src: Json, dst: Json): set<Json> {
    if src.Obj? && dst.Obj? then
      set n, v | n in src.members && n in dst.members && v in ListTaken(src.members[n], dst.members[n]) :: v
    else if src.Arr? && dst.Arr? then
      set i | 0 <= i < |src.items| && !SameAt(src, dst, i) :: src.items[i]
    else {}
  }

  /** The values of the members that objects gain. */
  ghost function MembersGained(src: Json, dst: Json): set<Json> {
    if src.Obj? && dst.Obj? then
      (set n | n in dst.members.Keys && n !in src.members :: dst.members[n])
      + set n, v | n in src.members && n in dst.members && v in MembersGained(src.members[n], dst.members[n]) :: v
    else {}
  }

  /** The values that lists gain, position by position. */
  ghost function ListGained(src: Json, dst: Json): set<Json> {
    if src.Obj? && dst.Obj? then
      set n, v | n in src.members && n in dst.members && v in ListGained(src.members[n], dst.members[n]) :: v
    else if src.Arr? && dst.Arr? then
      set i | 0 <= i < |dst.items| && !(i < |src.items| && SameAt(src, dst, i)) :: dst.items[i]
    else {}
  }

  /** The values of the members that objects lose and whose name int() accepts. */
  ghost function KeyedLost(src: Json, dst: Json): set<Json> {
    if src.Obj? && dst.Obj? then
      (set n | n in src.members.Keys && n !in dst.members && PyInt(n).Some? :: src.members[n])
      + set n, v | n in src.members && n in dst.members && v in KeyedLost(src.members[n], dst.members[n]) :: v
    else {}
  }

  /** No two lists are compared that have different objects, or different lists, at the same position. */
  ghost predicate Aligned(src: Json, dst: Json) {
    if src.Obj? && dst.Obj? then
      forall n :: n in src.members && n in dst.members ==> Aligned(src.members[n], dst.members[n])
    else if src.Arr? && dst.Arr? then
      forall i :: 0 <= i < |src.items| && i < |dst.items| && src.items[i] != dst.items[i] ==>
        !(src.items[i].Obj? && dst.items[i].Obj?) && !(src.items[i].Arr? && dst.items[i].Arr?)
    else true
  }

  // ----- where holes are ---------------------------------------------------------------------

  lemma {:induction false} HolesBelow(p: Pointer, src: Json, dst: Json, h: Pointer)
    requires h in AllHoles(p, src, dst)
    ensures p <= h
    decreases src
  {
    if src.Obj? && dst.Obj?
       && !(exists n :: n in src.members.Keys + dst.members.Keys && !Common(src, dst, n) && h == p + [n]) {
      var n :| n in src.members && n in dst.members && h in AllHoles(p + [n], src.members[n], dst.members[n]);
      HolesBelow(p + [n], src.members[n], dst.members[n], h);
    }
  }

  /** The holes of the child n. */
  ghost function ChildHoles(p: Pointer, src: Json, dst: Json, n: string): set<Pointer>
    requires src.Obj? && dst.Obj? && Common(src, dst, n)
  {
    AllHoles(p + [n], src.members[n], dst.members[n])
  }

  lemma ChildHolesWithin(p: Pointer, src: Json, dst: Json, n: string)
    requires src.Obj? && dst.Obj? && Common(src, dst, n)
    ensures ListHoles(p + [n], src.members[n], dst.members[n]) <= ListHoles(p, src, dst)
    ensures MemberHoles(p + [n], src.members[n], dst.members[n]) <= MemberHoles(p, src, dst)
    ensures ValueHoles(p + [n], src.members[n], dst.members[n]) <= ValueHoles(p, src, dst)
    ensures ReplacedHoles(p + [n], src.members[n], dst.members[n]) <= ReplacedHoles(p, src, dst)
    ensures ListTaken(src.members[n], dst.members[n]) <= ListTaken(src, dst)
    ensures MembersGained(src.members[n], dst.members[n]) <= MembersGained(src, dst)
    ensures ListGained(src.members[n], dst.members[n]) <= ListGained(src, dst)
    ensures KeyedLost(src.members[n], dst.members[n]) <= KeyedLost(src, dst)
  {
  }

  lemma ChildHolesApart(p: Pointer, src: Json, dst: Json, n: string, n': string)
    requires src.Obj? && dst.Obj? && Common(src, dst, n) && Common(src, dst, n') && n != n'
    ensures ChildHoles(p, src, dst, n) !! ChildHoles(p, src, dst, n')
  {
    forall h | h in ChildHoles(p, src, dst, n)
      ensures h !in ChildHoles(p, src, dst, n')
    {
      HolesBelow(p + [n], src.members[n], dst.members[n], h);
      assert h[|p|] == (p + [n])[|p|];
      if h in ChildHoles(p, src, dst, n') {
        HolesBelow(p + [n'], src.members[n'], dst.members[n'], h);
      }
    }
  }

  /** A hole is a member only one document has, or lies in a child both have, or is the whole place. */
  lemma HoleCases(p: Pointer, src: Json, dst: Json, h: Pointer)
    requires src.Obj? && dst.Obj? && h in AllHoles(p, src, dst)
    ensures |h| > |p| && h[..|p|] == p
    ensures var n := h[|p|];
            if n in src.members && n in dst.members then
              && h in ChildHoles(p, src, dst, n)
              && (h in ListHoles(p, src, dst) <==> h in ListHoles(p + [n], src.members[n], dst.members[n]))
              && (h in MemberHoles(p, src, dst) <==> h in MemberHoles(p + [n], src.members[n], dst.members[n]))
              && (h in ValueHoles(p, src, dst) <==> h in ValueHoles(p + [n], src.members[n], dst.members[n]))
            else
              && n in src.members.Keys + dst.members.Keys && h == p + [n]
              && h in MemberHoles(p, src, dst) && h !in ListHoles(p, src, dst) && h !in ValueHoles(p, src, dst)
  {
    forall n | n in src.members && n in dst.members && h in ChildHoles(p, src, dst, n)
      ensures |h| > |p| && h[..|p|] == p && h[|p|] == n
    {
      HolesBelow(p + [n], src.members[n], dst.members[n], h);
      assert (p + [n])[|p|] == n;
    }
  }

  /** No hole lies inside another, and every hole is of one sort. */
  lemma {:induction false} HolesPrefixFree(p: Pointer, src: Json, dst: Json, h: Pointer, h': Pointer)
    requires h in AllHoles(p, src, dst) && h' in AllHoles(p, src, dst) && h <= h'
    ensures h == h'
    ensures h in ListHoles(p, src, dst) ==> h !in MemberHoles(p, src, dst) && h !in ValueHoles(p, src, dst)
    ensures h in MemberHoles(p, src, dst) ==> h !in ValueHoles(p, src, dst)
    decreases src
  {
    if src.Obj? && dst.Obj? {
      HoleCases(p, src, dst, h);
      HoleCases(p, src, dst, h');
      var n := h[|p|];
      assert h'[|p|] == n;
      if Common(src, dst, n) {
        HolesPrefixFree(p + [n], src.members[n], dst.members[n], h, h');
      }
    }
  }
}
