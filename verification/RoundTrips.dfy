/**
 The patch that the diff records, with moves, turns the source document into the target document.
 */
module RoundTrips {
  import opened Outcomes
  import opened Pointers
  import opened Documents
  import opened Patches
  import opened Stores
  import opened Holes
  import opened Tracking

  /** The document that a store stands for. */
  ghost function Doc(p: Pointer, src: Json, dst: Json, S: Store): Json
    decreases src
  {
    if src.Obj? && dst.Obj? then
      Obj(map n | n in src.members.Keys + dst.members.Keys && Present(p, src, dst, S, n) ::
            if Common(src, dst, n) then Doc(p + [n], src.members[n], dst.members[n], S) else S[p + [n]].cell.v)
    else if src.Arr? && dst.Arr? then Arr(if p in S && S[p].Many? then Vals(S[p].cells) else [])
    else if p in S && S[p].One? then S[p].cell.v
    else Num(0)
  }

  ghost predicate Present(p: Pointer, src: Json, dst: Json, S: Store, n: string)
    requires src.Obj? && dst.Obj?
  {
    Common(src, dst, n) || (p + [n] in S && S[p + [n]].One?)
  }

  ghost predicate SameOn(S: Store, T: Store, H: set<Pointer>) {
    forall h :: h in H ==> (h in S <==> h in T) && (h in S ==> S[h] == T[h])
  }

  lemma {:induction false} DocFrame(p: Pointer, src: Json, dst: Json, S: Store, T: Store)
    requires SameOn(S, T, AllHoles(p, src, dst))
    ensures Doc(p, src, dst, S) == Doc(p, src, dst, T)
    decreases src
  {
    if src.Obj? && dst.Obj? {
      forall n | n in src.members.Keys + dst.members.Keys
        ensures Present(p, src, dst, S, n) <==> Present(p, src, dst, T, n)
        ensures Common(src, dst, n) ==>
                  Doc(p + [n], src.members[n], dst.members[n], S) == Doc(p + [n], src.members[n], dst.members[n], T)
        ensures !Common(src, dst, n) && p + [n] in S ==> p + [n] in T && S[p + [n]] == T[p + [n]]
      {
        if Common(src, dst, n) {
          ChildHolesWithin(p, src, dst, n);
          DocFrame(p + [n], src.members[n], dst.members[n], S, T);
        } else {
          assert p + [n] in MemberHoles(p, src, dst);
        }
      }
      SameMembers(p, src, dst, S, T);
    }
  }

  lemma SameMembers(p: Pointer, src: Json, dst: Json, S: Store, T: Store)
    requires src.Obj? && dst.Obj?
    requires forall n :: n in src.members.Keys + dst.members.Keys ==>
               && (Present(p, src, dst, S, n) <==> Present(p, src, dst, T, n))
               && (Common(src, dst, n) ==>
                     Doc(p + [n], src.members[n], dst.members[n], S) == Doc(p + [n], src.members[n], dst.members[n], T))
               && (!Common(src, dst, n) && p + [n] in S ==> p + [n] in T && S[p + [n]] == T[p + [n]])
    ensures Doc(p, src, dst, S) == Doc(p, src, dst, T)
  {
    assert Doc(p, src, dst, S).members == Doc(p, src, dst, T).members;
  }

  lemma MembersAre(p: Pointer, src: Json, dst: Json, S: Store, doc: Json)
    requires src.Obj? && dst.Obj? && doc.Obj? && doc.members.Keys <= src.members.Keys + dst.members.Keys
    requires forall n :: n in src.members.Keys + dst.members.Keys ==>
               && (Present(p, src, dst, S, n) <==> n in doc.members)
               && (Common(src, dst, n) ==> Doc(p + [n], src.members[n], dst.members[n], S) == doc.members[n])
               && (!Common(src, dst, n) && n in doc.members ==> S[p + [n]].cell.v == doc.members[n])
    ensures Doc(p, src, dst, S) == doc
  {
    assert Doc(p, src, dst, S).members == doc.members;
  }

  /** Before the diff has done anything, the store stands for the source document. */
  lemma {:induction false} DocPending(root: Json, S: Store, p: Pointer, src: Json, dst: Json, lists: set<Pointer>)
    requires Resolve(root, p) == Ok(src)
    requires forall h :: h in AllHoles(p, src, dst) ==> Pending(root, S, h, h in lists)
    requires ListHoles(p, src, dst) <= lists && MemberHoles(p, src, dst) !! lists && ValueHoles(p, src, dst) !! lists
    ensures Doc(p, src, dst, S) == src
    decreases src
  {
    if src.Obj? && dst.Obj? {
      forall n | n in src.members.Keys + dst.members.Keys
        ensures Present(p, src, dst, S, n) <==> n in src.members
        ensures Common(src, dst, n) ==> Doc(p + [n], src.members[n], dst.members[n], S) == src.members[n]
        ensures !Common(src, dst, n) && n in src.members ==> S[p + [n]].cell.v == src.members[n]
      {
        ResolveMember(root, p, src, n);
        if Common(src, dst, n) {
          ChildHolesWithin(p, src, dst, n);
          DocPending(root, S, p + [n], src.members[n], dst.members[n], lists);
        } else {
          assert p + [n] in MemberHoles(p, src, dst);
        }
      }
      MembersAre(p, src, dst, S, src);
    } else if src.Arr? && dst.Arr? {
      assert Pending(root, S, p, true);
      assert Vals(S[p].cells) == src.items;
    } else {
      assert Pending(root, S, p, false);
    }
  }

  /** When every hole is done, the store stands for the target document. */
  lemma {:induction false} DocDone(root: Json, S: Store, p: Pointer, src: Json, dst: Json, lists: set<Pointer>)
    requires Resolve(root, p) == Ok(dst)
    requires forall h :: h in AllHoles(p, src, dst) ==> Done(root, S, h, h in lists)
    requires ListHoles(p, src, dst) <= lists && MemberHoles(p, src, dst) !! lists && ValueHoles(p, src, dst) !! lists
    ensures Doc(p, src, dst, S) == dst
    decreases src
  {
    if src.Obj? && dst.Obj? {
      forall n | n in src.members.Keys + dst.members.Keys
        ensures Present(p, src, dst, S, n) <==> n in dst.members
        ensures Common(src, dst, n) ==> Doc(p + [n], src.members[n], dst.members[n], S) == dst.members[n]
        ensures !Common(src, dst, n) && n in dst.members ==> S[p + [n]].cell.v == dst.members[n]
      {
        ResolveMember(root, p, dst, n);
        if Common(src, dst, n) {
          ChildHolesWithin(p, src, dst, n);
          DocDone(root, S, p + [n], src.members[n], dst.members[n], lists);
        } else {
          assert p + [n] in MemberHoles(p, src, dst);
        }
      }
      MembersAre(p, src, dst, S, dst);
    } else if src.Arr? && dst.Arr? {
      assert Done(root, S, p, true);
    } else {
      assert Done(root, S, p, false);
    }
  }

  // ----- one place of the document ------------------------------------------------------------

  /** Changing a hole below the name n leaves the other members alone. */
  lemma DocElsewhere(p: Pointer, src: Json, dst: Json, S: Store, h: Pointer, slot: Slot, n: string)
    requires src.Obj? && dst.Obj? && |h| > |p| && h[..|p|] == p && n != h[|p|]
    ensures var m, m' := Doc(p, src, dst, S).members, Doc(p, src, dst, S[h := slot]).members;
            (n in m <==> n in m') && (n in m ==> m[n] == m'[n])
  {
    var T := S[h := slot];
    assert (p + [n])[|p|] == n;
    if n in src.members && n in dst.members {
      var H := AllHoles(p + [n], src.members[n], dst.members[n]);
      forall k | k in H
        ensures k != h
      {
        HolesBelow(p + [n], src.members[n], dst.members[n], k);
        assert k[|p|] == (p + [n])[|p|];
      }
      assert SameOn(S, T, H);
      DocFrame(p + [n], src.members[n], dst.members[n], S, T);
    }
  }

  /** Changing a hole inside the child n changes that child only. */
  lemma DocChild(p: Pointer, src: Json, dst: Json, S: Store, h: Pointer, slot: Slot)
    requires src.Obj? && dst.Obj? && |h| > |p| && h[..|p|] == p && Common(src, dst, h[|p|])
    ensures var n := h[|p|];
            && Walk(Doc(p, src, dst, S), n) == Ok(Doc(p + [n], src.members[n], dst.members[n], S))
            && Doc(p, src, dst, S[h := slot])
               == SetChild(Doc(p, src, dst, S), n, Doc(p + [n], src.members[n], dst.members[n], S[h := slot]))
  {
    var n := h[|p|];
    var m, m' := Doc(p, src, dst, S).members, Doc(p, src, dst, S[h := slot]).members;
    forall n' | n' != n
      ensures (n' in m <==> n' in m') && (n' in m ==> m[n'] == m'[n'])
    {
      DocElsewhere(p, src, dst, S, h, slot, n');
    }
    assert m' == m[n := m'[n]];
  }

  lemma RestOf(p: Pointer, h: Pointer)
    requires p <= h && |h| > |p|
    ensures h[|p|..] == [h[|p|]] + h[|p| + 1..] && h[|p|..][1..] == h[|p + [h[|p|]]|..]
    ensures h[|p|..][0] == h[|p|]
  {
  }

  /** A list of the document holds the values of its cells, and changes with them. */
  lemma {:induction false} DocList(p: Pointer, src: Json, dst: Json, S: Store, h: Pointer, cells: seq<Cell>)
    requires h in ListHoles(p, src, dst) && h in S && S[h].Many?
    ensures p <= h
    ensures Resolve(Doc(p, src, dst, S), h[|p|..]) == Ok(Arr(Vals(S[h].cells)))
    ensures Replant(Doc(p, src, dst, S), h[|p|..], Arr(Vals(cells))) == Doc(p, src, dst, S[h := Many(cells)])
    decreases src
  {
    HolesBelow(p, src, dst, h);
    if src.Obj? {
      HoleCases(p, src, dst, h);
      var n := h[|p|];
      DocChild(p, src, dst, S, h, Many(cells));
      DocList(p + [n], src.members[n], dst.members[n], S, h, cells);
      RestOf(p, h);
    } else {
      assert h[|p|..] == [];
    }
  }

  /** The object that a member or value hole belongs to. */
  ghost predicate InObject(p: Pointer, src: Json, dst: Json, S: Store, h: Pointer, m: map<string, Json>)
    requires |h| > |p|
  {
    var n := Last(h);
    && Resolve(Doc(p, src, dst, S), h[|p|..|h| - 1]) == Ok(Obj(m))
    && (n in m <==> h in S && S[h].One?)
    && (n in m ==> m[n] == S[h].cell.v)
  }

  lemma {:induction false} DocMember(p: Pointer, src: Json, dst: Json, S: Store, h: Pointer, slot: Slot)
    returns (m: map<string, Json>)
    requires h in AllHoles(p, src, dst) && |h| > |p| && h !in ListHoles(p, src, dst)
    requires h in MemberHoles(p, src, dst) || (h in S && S[h].One? && slot.One?)
    requires !slot.Many?
    ensures InObject(p, src, dst, S, h, m)
    ensures Replant(Doc(p, src, dst, S), h[|p|..|h| - 1], Obj(Updated(m, Last(h), slot))) ==
              Doc(p, src, dst, S[h := slot])
    decreases src
  {
    HolesBelow(p, src, dst, h);
    OfObjects(p, src, dst, h);
    var n := h[|p|];
    if |h| == |p| + 1 {
      m := DocOwnHole(p, src, dst, S, h, slot);
    } else {
      DeeperHole(p, src, dst, h);
      m := DocMember(p + [n], src.members[n], dst.members[n], S, h, slot);
      DocDeeper(p, src, dst, S, h, slot, m);
    }
  }

  lemma OfObjects(p: Pointer, src: Json, dst: Json, h: Pointer)
    requires h in AllHoles(p, src, dst) && |h| > |p|
    ensures src.Obj? && dst.Obj?
  {
  }

  lemma DeeperHole(p: Pointer, src: Json, dst: Json, h: Pointer)
    requires src.Obj? && dst.Obj? && h in AllHoles(p, src, dst) && |h| > |p| + 1
    ensures h[..|p|] == p && Common(src, dst, h[|p|])
    ensures var n := h[|p|];
            && h in AllHoles(p + [n], src.members[n], dst.members[n])
            && (h in ListHoles(p, src, dst) <==> h in ListHoles(p + [n], src.members[n], dst.members[n]))
            && (h in MemberHoles(p, src, dst) <==> h in MemberHoles(p + [n], src.members[n], dst.members[n]))
  {
    HoleCases(p, src, dst, h);
    assert h != p + [h[|p|]];
  }

  lemma DocOwnHole(p: Pointer, src: Json, dst: Json, S: Store, h: Pointer, slot: Slot) returns (m: map<string, Json>)
    requires src.Obj? && dst.Obj? && h in AllHoles(p, src, dst) && h !in ListHoles(p, src, dst) && p <= h
             && |h| == |p| + 1
    requires h in MemberHoles(p, src, dst) || (h in S && S[h].One? && slot.One?)
    requires !slot.Many?
    ensures InObject(p, src, dst, S, h, m)
    ensures Replant(Doc(p, src, dst, S), h[|p|..|h| - 1], Obj(Updated(m, Last(h), slot))) ==
              Doc(p, src, dst, S[h := slot])
  {
    OwnPath(p, h);
    m := Doc(p, src, dst, S).members;
    DocOwnMember(p, src, dst, S, h[|p|], slot);
  }

  lemma OwnPath(p: Pointer, h: Pointer)
    requires p <= h && |h| == |p| + 1
    ensures h == p + [h[|p|]] && Last(h) == h[|p|] && h[|p|..|h| - 1] == []
  {
  }

  /** From the child to the whole. */
  lemma DocDeeper(p: Pointer, src: Json, dst: Json, S: Store, h: Pointer, slot: Slot, m: map<string, Json>)
    requires src.Obj? && dst.Obj? && |h| > |p| + 1 && h[..|p|] == p && Common(src, dst, h[|p|]) && !slot.Many?
    requires var n := h[|p|];
             var child := Doc(p + [n], src.members[n], dst.members[n], S);
             && InObject(p + [n], src.members[n], dst.members[n], S, h, m)
             && Replant(child, h[|p| + 1..|h| - 1], Obj(Updated(m, Last(h), slot)))
                == Doc(p + [n], src.members[n], dst.members[n], S[h := slot])
    ensures InObject(p, src, dst, S, h, m)
    ensures Replant(Doc(p, src, dst, S), h[|p|..|h| - 1], Obj(Updated(m, Last(h), slot))) ==
              Doc(p, src, dst, S[h := slot])
  {
    var n := h[|p|];
    var r := h[|p|..|h| - 1];
    assert r[0] == n && r[1..] == h[|p| + 1..|h| - 1];
    DocChild(p, src, dst, S, h, slot);
  }

  function Updated(m: map<string, Json>, n: string, slot: Slot): map<string, Json>
    requires !slot.Many?
  {
    if slot.One? then m[n := slot.cell.v] else m - {n}
  }

  lemma DocOwnMember(p: Pointer, src: Json, dst: Json, S: Store, n: string, slot: Slot)
    requires src.Obj? && dst.Obj? && p + [n] in AllHoles(p, src, dst) && p + [n] !in ListHoles(p, src, dst)
    requires p + [n] in MemberHoles(p, src, dst) || (p + [n] in S && S[p + [n]].One? && slot.One?)
    requires !slot.Many?
    ensures var m, h := Doc(p, src, dst, S).members, p + [n];
            && (n in m <==> h in S && S[h].One?)
            && (n in m ==> m[n] == S[h].cell.v)
            && Doc(p, src, dst, S[h := slot]).members == Updated(m, n, slot)
  {
    var h := p + [n];
    HoleCases(p, src, dst, h);
    assert h[|p|] == n;
    if Common(src, dst, n) {
      HolesAtChild(p, src, dst, n);
    }
    OwnName(p, src, dst, S, n);
    OwnName(p, src, dst, S[h := slot], n);
    OtherNames(p, src, dst, S, n, slot);
    UpdatedIs(Doc(p, src, dst, S).members, Doc(p, src, dst, S[h := slot]).members, n, slot);
  }

  lemma UpdatedIs(m: map<string, Json>, m': map<string, Json>, n: string, slot: Slot)
    requires !slot.Many? && forall n' :: n' != n ==> (n' in m <==> n' in m') && (n' in m ==> m[n'] == m'[n'])
    requires (n in m' <==> slot.One?) && (n in m' ==> m'[n] == slot.cell.v)
    ensures m' == Updated(m, n, slot)
  {
  }

  lemma OtherNames(p: Pointer, src: Json, dst: Json, S: Store, n: string, slot: Slot)
    requires src.Obj? && dst.Obj? && p + [n] in AllHoles(p, src, dst)
    ensures var m, m' := Doc(p, src, dst, S).members, Doc(p, src, dst, S[p + [n] := slot]).members;
            forall n' :: n' != n ==> (n' in m <==> n' in m') && (n' in m ==> m[n'] == m'[n'])
  {
    var h := p + [n];
    assert h[|p|] == n;
    var m, m' := Doc(p, src, dst, S).members, Doc(p, src, dst, S[h := slot]).members;
    forall n' | n' != n
      ensures (n' in m <==> n' in m') && (n' in m ==> m[n'] == m'[n'])
    {
      DocElsewhere(p, src, dst, S, h, slot, n');
    }
  }

  lemma OwnName(p: Pointer, src: Json, dst: Json, S: Store, n: string)
    requires src.Obj? && dst.Obj? && n in src.members.Keys + dst.members.Keys
    requires Common(src, dst, n) ==>
               var s, t := src.members[n], dst.members[n];
               !(s.Obj? && t.Obj?) && !(s.Arr? && t.Arr?) && p + [n] in S && S[p + [n]].One?
    ensures var m := Doc(p, src, dst, S).members;
            (n in m <==> p + [n] in S && S[p + [n]].One?) && (n in m ==> m[n] == S[p + [n]].cell.v)
  {
  }

  /** A hole that is a child both documents have, and no list, is a value hole. */
  lemma HolesAtChild(p: Pointer, src: Json, dst: Json, n: string)
    requires src.Obj? && dst.Obj? && Common(src, dst, n)
    requires p + [n] in AllHoles(p, src, dst) && p + [n] !in ListHoles(p, src, dst)
    ensures p + [n] !in MemberHoles(p, src, dst)
    ensures var s, t := src.members[n], dst.members[n]; !(s.Obj? && t.Obj?) && !(s.Arr? && t.Arr?)
  {
    var h := p + [n];
    HoleCases(p, src, dst, h);
    assert h[|p|] == n;
    var s, t := src.members[n], dst.members[n];
    if s.Obj? && t.Obj? {
      HoleCases(h, s, t, h);
    }
  }
}
