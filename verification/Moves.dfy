/**
 Running the recorded actions on the store is applying the recorded operations to the document, and so the
 patch built with all its moves turns the source document into the target document.
 */
module Moves {
  import opened Outcomes
  import opened Text
  import opened Pointers
  import opened Documents
  import opened Patches
  import opened Diffs
  import opened Stores
  import opened Recording
  import opened Holes
  import opened Timing
  import opened Tracking
  import opened RoundTrips

  /** The places of the comparison of two whole documents. */
  ghost function PlacesOf(src: Json, dst: Json): Places {
    Places(ListHoles([], src, dst), MemberHoles([], src, dst), ReplacedHoles([], src, dst), ListTaken(src, dst),
           KeyedLost(src, dst), dst)
  }

  lemma {:induction false} ReplacedAreValues(p: Pointer, src: Json, dst: Json)
    ensures ReplacedHoles(p, src, dst) <= ValueHoles(p, src, dst)
    decreases src
  {
    if src.Obj? && dst.Obj? {
      forall n | n in src.members && n in dst.members
        ensures ReplacedHoles(p + [n], src.members[n], dst.members[n]) <=
                  ValueHoles(p + [n], src.members[n], dst.members[n])
      {
        ReplacedAreValues(p + [n], src.members[n], dst.members[n]);
      }
    }
  }

  /** The document a store stands for, from the root. */
  ghost function RootDoc(src: Json, dst: Json, S: Store): Json {
    Doc([], src, dst, S)
  }

  lemma TokenOf(i: nat)
    ensures Str(i) != "-" && IndexOf(Str(i)) == Some(i)
  {
    IndexOfDec(i);
  }

  lemma ListParent(src: Json, dst: Json, S: Store, c: Pointer, i: int, cells: seq<Cell>)
    requires c in ListHoles([], src, dst) && c in S && S[c].Many? && i >= 0
    ensures ToLast(RootDoc(src, dst, S), Enc(Elem(c, i))) == Ok((Arr(Vals(S[c].cells)), Index(i)))
    ensures Resolve(RootDoc(src, dst, S), c).Ok?
    ensures Replant(RootDoc(src, dst, S), c, Arr(Vals(cells))) == RootDoc(src, dst, S[c := Many(cells)])
  {
    DocList([], src, dst, S, c, cells);
    assert c[0..] == c;
    EncElem(c, i);
    TokenOf(i);
  }

  lemma MemberParent(src: Json, dst: Json, S: Store, q: Pointer, slot: Slot)
    returns (m: map<string, Json>)
    requires q in AllHoles([], src, dst) && q != [] && q !in ListHoles([], src, dst)
    requires q in MemberHoles([], src, dst) || (q in S && S[q].One? && slot.One?)
    requires !slot.Many?
    ensures ToLast(RootDoc(src, dst, S), q) == Ok((Obj(m), Member(Last(q))))
    ensures (Last(q) in m <==> q in S && S[q].One?) && (Last(q) in m ==> m[Last(q)] == S[q].cell.v)
    ensures Resolve(RootDoc(src, dst, S), Front(q)).Ok?
    ensures Replant(RootDoc(src, dst, S), Front(q), Obj(Updated(m, Last(q), slot))) == RootDoc(src, dst, S[q := slot])
  {
    m := DocMember([], src, dst, S, q, slot);
    assert q[0..|q| - 1] == Front(q);
  }

  /** The source and target, and the facts that locations do not collide. */
  ghost predicate Sound(src: Json, dst: Json, d: Places) {
    d == PlacesOf(src, dst) && Separate(d)
  }

  lemma MembersAreMembers(src: Json, dst: Json, q: Pointer)
    requires q in MemberHoles([], src, dst)
    ensures q !in ListHoles([], src, dst)
  {
    HolesPrefixFree([], src, dst, q, q);
  }

  lemma TakeElem(src: Json, dst: Json, S: Store, c: Pointer, i: int, v: Json)
    requires c in ListHoles([], src, dst) && Take(S, Elem(c, i), v).Some?
    ensures var doc, p := RootDoc(src, dst, S), Enc(Elem(c, i));
            && p != []
            && FetchFrom(doc, p) == Ok((Arr(Vals(S[c].cells)), v))
            && ApplyRemove(doc, p) == Ok(RootDoc(src, dst, Take(S, Elem(c, i), v).value))
  {
    var cells := S[c].cells;
    ListParent(src, dst, S, c, i, Cut(cells, i));
    EncElem(c, i);
    ValsCut(cells, i);
  }

  lemma TakeMember(src: Json, dst: Json, S: Store, q: Pointer, v: Json)
    requires q in MemberHoles([], src, dst) && q != [] && Take(S, Whole(q), v).Some?
    ensures var doc := RootDoc(src, dst, S);
            && FetchFrom(doc, q).Ok? && FetchFrom(doc, q).value.0.Obj? && FetchFrom(doc, q).value.1 == v
            && ApplyRemove(doc, q) == Ok(RootDoc(src, dst, Take(S, Whole(q), v).value))
  {
    MembersAreMembers(src, dst, q);
    var m := MemberParent(src, dst, S, q, Gone);
  }

  lemma TakeApplies(src: Json, dst: Json, d: Places, S: Store, l: Loc, v: Json)
    requires Sound(src, dst, d) && LegalLoc(d, l) && Take(S, l, v).Some?
    ensures Enc(l) != []
    ensures FetchFrom(RootDoc(src, dst, S), Enc(l)).Ok?
    ensures FetchFrom(RootDoc(src, dst, S), Enc(l)).value.1 == v
    ensures FetchFrom(RootDoc(src, dst, S), Enc(l)).value.0.Obj? <==> l.Whole?
    ensures ApplyRemove(RootDoc(src, dst, S), Enc(l)) == Ok(RootDoc(src, dst, Take(S, l, v).value))
  {
    match l {
      case Elem(c, i) => TakeElem(src, dst, S, c, i, v);
      case Whole(q) => TakeMember(src, dst, S, q, v);
    }
  }

  lemma PutElem(src: Json, dst: Json, S: Store, c: Pointer, i: int, v: Json)
    requires c in ListHoles([], src, dst) && Put(S, Elem(c, i), v).Some?
    ensures ApplyAdd(RootDoc(src, dst, S), Enc(Elem(c, i)), v) == Ok(RootDoc(src, dst, Put(S, Elem(c, i), v).value))
  {
    var cells := S[c].cells;
    ListParent(src, dst, S, c, i, Paste(cells, i, Cell(v, true)));
    EncElem(c, i);
    ValsPaste(cells, i, v);
  }

  lemma ValsPaste(cells: seq<Cell>, i: nat, v: Json)
    requires i <= |cells|
    ensures Vals(Paste(cells, i, Cell(v, true))) == Vals(cells)[..i] + [v] + Vals(cells)[i..]
  {
  }

  lemma PutMember(src: Json, dst: Json, S: Store, q: Pointer, v: Json)
    requires q in MemberHoles([], src, dst) && q != [] && Put(S, Whole(q), v).Some?
    ensures ApplyAdd(RootDoc(src, dst, S), q, v) == Ok(RootDoc(src, dst, Put(S, Whole(q), v).value))
  {
    MembersAreMembers(src, dst, q);
    var m := MemberParent(src, dst, S, q, One(Cell(v, true)));
  }

  lemma PutApplies(src: Json, dst: Json, d: Places, S: Store, l: Loc, v: Json)
    requires Sound(src, dst, d) && LegalLoc(d, l) && Put(S, l, v).Some?
    ensures ApplyAdd(RootDoc(src, dst, S), Enc(l), v) == Ok(RootDoc(src, dst, Put(S, l, v).value))
  {
    match l {
      case Elem(c, i) => PutElem(src, dst, S, c, i, v);
      case Whole(q) => PutMember(src, dst, S, q, v);
    }
  }

  lemma WriteApplies(src: Json, dst: Json, d: Places, S: Store, q: Pointer, v: Json)
    requires Sound(src, dst, d) && q in d.values && Write(S, q, v).Some?
    requires q != [] ==> Last(q) != "-"
    ensures ApplyReplace(RootDoc(src, dst, S), q, v) == Ok(RootDoc(src, dst, Write(S, q, v).value))
  {
    ReplacedAreValues([], src, dst);
    HolesPrefixFree([], src, dst, q, q);
    if q == [] {
      RootHole(src, dst);
    } else {
      var m := MemberParent(src, dst, S, q, One(Cell(v, true)));
    }
  }

  lemma RootHole(src: Json, dst: Json)
    requires [] in ValueHoles([], src, dst)
    ensures !(src.Obj? && dst.Obj?) && !(src.Arr? && dst.Arr?)
  {
    if src.Obj? && dst.Obj? {
      HoleCases([], src, dst, []);
    }
  }

  /** A member never moves to a place inside itself. */
  lemma NotInside(src: Json, dst: Json, d: Places, q: Pointer, t: Loc)
    requires Sound(src, dst, d) && q in d.members && LegalLoc(d, t) && Enc(t) != q
    ensures !Contains(Enc(t), q)
  {
    if q <= Enc(t) {
      match t {
        case Whole(q') => HolesPrefixFree([], src, dst, q, q');
        case Elem(c, i) =>
          assert |q| <= |c|;
          assert q <= c;
          HolesPrefixFree([], src, dst, q, c);
      }
    }
  }

  /** What is taken and put back at the same place only becomes added. */
  lemma PutBack(S: Store, l: Loc, v: Json)
    requires l.Elem? && Take(S, l, v).Some? && Put(Take(S, l, v).value, l, v).Some?
    ensures var T := Put(Take(S, l, v).value, l, v).value;
            && l.c in S && S[l.c].Many? && l.c in T && T[l.c].Many?
            && T == S[l.c := T[l.c]] && Vals(T[l.c].cells) == Vals(S[l.c].cells)
  {
    var T := Put(Take(S, l, v).value, l, v).value;
    Over(S, l.c, Take(S, l, v).value[l.c], T[l.c]);
    var a, b := Vals(T[l.c].cells), Vals(S[l.c].cells);
    assert |a| == |b|;
    forall i | 0 <= i < |a| ensures a[i] == b[i] {}
  }

  /** A move to where it starts leaves the document as it is. */
  lemma MoveInPlace(src: Json, dst: Json, S: Store, l: Loc, v: Json)
    requires l.Elem? && l.c in ListHoles([], src, dst)
    requires Take(S, l, v).Some? && Put(Take(S, l, v).value, l, v).Some?
    ensures RootDoc(src, dst, Put(Take(S, l, v).value, l, v).value) == RootDoc(src, dst, S)
  {
    var T := Put(Take(S, l, v).value, l, v).value;
    var cells := T[l.c].cells;
    PutBack(S, l, v);
    ListParent(src, dst, S, l.c, l.i, cells);
    LastToken(RootDoc(src, dst, S), Enc(l));
    EncElem(l.c, l.i);
    ResolveReplant(RootDoc(src, dst, S), l.c, Arr(Vals(cells)));
  }

  lemma MoveSteps(doc: Json, source: Pointer, ptr: Pointer, v: Json, without: Json, r: Json)
    requires FetchFrom(doc, source).Ok? && FetchFrom(doc, source).value.1 == v
    requires ApplyRemove(doc, source) == Ok(without) && ApplyAdd(without, ptr, v) == Ok(r)
    requires source != ptr && (FetchFrom(doc, source).value.0.Obj? ==> !Contains(ptr, source))
    ensures ApplyMove(doc, source, ptr) == Ok(r)
  {
  }

  lemma MoveApplies(src: Json, dst: Json, d: Places, S: Store, l: Loc, t: Loc, v: Json)
    requires Sound(src, dst, d) && LegalLoc(d, l) && LegalLoc(d, t)
    requires Take(S, l, v).Some? && Put(Take(S, l, v).value, t, v).Some?
    ensures ApplyMove(RootDoc(src, dst, S), Enc(l), Enc(t)) ==
              Ok(RootDoc(src, dst, Put(Take(S, l, v).value, t, v).value))
  {
    var S1 := Take(S, l, v).value;
    TakeApplies(src, dst, d, S, l, v);
    if Enc(t) == Enc(l) {
      EncInjective(d, l, t);
      MoveInPlace(src, dst, S, l, v);
    } else {
      PutApplies(src, dst, d, S1, t, v);
      if l.Whole? {
        NotInside(src, dst, d, l.q, t);
      }
      MoveSteps(RootDoc(src, dst, S), Enc(l), Enc(t), v, RootDoc(src, dst, S1), RootDoc(src, dst, Put(S1, t, v).value));
    }
  }

  ghost predicate NoDash(values: set<Pointer>) {
    forall q :: q in values && q != [] ==> Last(q) != "-"
  }

  lemma RemApplies(src: Json, dst: Json, d: Places, S: Store, l: Loc, v: Json)
    requires Sound(src, dst, d) && Legal(d, Rem(l, v)) && Perform(S, Rem(l, v)).Some?
    ensures ApplyOp(RootDoc(src, dst, S), EncEntry(Rem(l, v)).op)
            == Ok(RootDoc(src, dst, Perform(S, Rem(l, v)).value))
  {
    TakeApplies(src, dst, d, S, l, v);
  }

  lemma InsApplies(src: Json, dst: Json, d: Places, S: Store, l: Loc, v: Json)
    requires Sound(src, dst, d) && Legal(d, Ins(l, v)) && Perform(S, Ins(l, v)).Some?
    ensures ApplyOp(RootDoc(src, dst, S), EncEntry(Ins(l, v)).op)
            == Ok(RootDoc(src, dst, Perform(S, Ins(l, v)).value))
  {
    PutApplies(src, dst, d, S, l, v);
  }

  lemma MovApplies(src: Json, dst: Json, d: Places, S: Store, l: Loc, t: Loc, v: Json)
    requires Sound(src, dst, d) && Legal(d, Mov(l, t, v)) && Perform(S, Mov(l, t, v)).Some?
    ensures ApplyOp(RootDoc(src, dst, S), EncEntry(Mov(l, t, v)).op)
            == Ok(RootDoc(src, dst, Perform(S, Mov(l, t, v)).value))
  {
    assert EncEntry(Mov(l, t, v)).op == Move(Enc(l), Enc(t));
    assert Perform(S, Mov(l, t, v)) == Put(Take(S, l, v).value, t, v);
    MoveApplies(src, dst, d, S, l, t, v);
  }

  lemma RepApplies(src: Json, dst: Json, d: Places, S: Store, q: Pointer, v: Json)
    requires Sound(src, dst, d) && Legal(d, Rep(q, v)) && NoDash(d.values) && Perform(S, Rep(q, v)).Some?
    ensures ApplyOp(RootDoc(src, dst, S), EncEntry(Rep(q, v)).op)
            == Ok(RootDoc(src, dst, Perform(S, Rep(q, v)).value))
  {
    WriteApplies(src, dst, d, S, q, v);
  }

  lemma PerformApplies(src: Json, dst: Json, d: Places, S: Store, a: Action)
    requires Sound(src, dst, d) && Legal(d, a) && NoDash(d.values) && Perform(S, a).Some?
    ensures ApplyOp(RootDoc(src, dst, S), EncEntry(a).op) == Ok(RootDoc(src, dst, Perform(S, a).value))
  {
    match a {
      case Rem(l, v) => RemApplies(src, dst, d, S, l, v);
      case Ins(l, v) => InsApplies(src, dst, d, S, l, v);
      case Mov(l, t, v) => MovApplies(src, dst, d, S, l, t, v);
      case Rep(q, v) => RepApplies(src, dst, d, S, q, v);
    }
  }

  lemma {:induction false} RunApplies(src: Json, dst: Json, d: Places, S: Store, acts: seq<Action>)
    requires Sound(src, dst, d) && AllLegal(d, acts) && NoDash(d.values) && Run(S, acts).Some?
    ensures Apply(RootDoc(src, dst, S), Ops(EncAll(acts))) == Ok(RootDoc(src, dst, Run(S, acts).value))
    decreases |acts|
  {
    if acts != [] {
      PerformApplies(src, dst, d, S, acts[0]);
      RunApplies(src, dst, d, Perform(S, acts[0]).value, acts[1..]);
      assert Ops(EncAll(acts)) == [EncEntry(acts[0]).op] + Ops(EncAll(acts[1..]));
    }
  }

  /** A removed member never comes back, so nothing called '-' is fused. */
  lemma {:induction false} NoDashFused(d: Places, S: Store, acts: seq<Action>)
    requires Separate(d) && AllLegal(d, acts) && Run(S, acts).Some?
    ensures !FusesDash(Ops(EncAll(acts)))
    decreases |acts|
  {
    if acts != [] {
      var ops := Ops(EncAll(acts));
      NoDashFused(d, Perform(S, acts[0]).value, acts[1..]);
      assert ops[1..] == Ops(EncAll(acts[1..]));
      if Fusable(ops) {
        var l, t := acts[0].l, acts[1].l;
        assert ops[0] == EncEntry(acts[0]).op && ops[1] == EncEntry(acts[1]).op;
        assert Legal(d, acts[0]) && Legal(d, acts[1]);
        EncInjective(d, l, t);
        var T := Perform(S, acts[0]).value;
        assert acts[1..][0] == acts[1];
        assert Perform(T, acts[1]).Some?;
        assert l.Elem?;
        EncElem(l.c, l.i);
        TokenOf(l.i);
        NoDashFused(d, Perform(T, acts[1]).value, acts[2..]);
        assert acts[1..][1..] == acts[2..];
        assert ops[2..] == Ops(EncAll(acts[2..]));
      }
    }
  }

  // ----- the theorem -------------------------------------------------------------------------

  /** The target has a list at every list hole, and an object around every member hole. */
  lemma {:induction false} HolesOfTarget(root: Json, p: Pointer, src: Json, dst: Json, h: Pointer)
    requires Resolve(root, p) == Ok(dst)
    ensures h in ListHoles(p, src, dst) ==> Resolve(root, h).Ok? && Resolve(root, h).value.Arr?
    ensures h in MemberHoles(p, src, dst) ==>
              h != [] && Resolve(root, Front(h)).Ok? && Resolve(root, Front(h)).value.Obj?
    decreases src
  {
    if src.Obj? && dst.Obj? && h in AllHoles(p, src, dst) {
      HoleCases(p, src, dst, h);
      var n := h[|p|];
      if n in src.members && n in dst.members {
        ResolveMember(root, p, dst, n);
        HolesOfTarget(root, p + [n], src.members[n], dst.members[n], h);
      } else {
        assert Front(h) == p;
      }
    }
  }

  /**
   Joined parent paths tell apart the lists the documents have in common, and tell them from the objects that
   gain or lose members.
   */
  ghost predicate Separable(src: Json, dst: Json) {
    var L, M := ListHoles([], src, dst), MemberHoles([], src, dst);
    && (forall c, c' :: c in L && c' in L && PathText(c) == PathText(c') ==> c == c')
    && (forall q :: q in M ==> q != [])
    && (forall c, q :: c in L && q in M ==> PathText(Front(q)) != PathText(c))
  }

  lemma SeparableSeparate(src: Json, dst: Json)
    requires Separable(src, dst)
    ensures Separate(PlacesOf(src, dst))
  {
    var d := PlacesOf(src, dst);
    forall c | c in d.lists ensures Resolve(dst, c).Ok? && Resolve(dst, c).value.Arr? {
      HolesOfTarget(dst, [], src, dst, c);
    }
    forall q | q in d.members ensures Resolve(dst, Front(q)).Ok? && Resolve(dst, Front(q)).value.Obj? {
      HolesOfTarget(dst, [], src, dst, q);
    }
  }

  ghost function InitialStore(src: Json, dst: Json): Store {
    map h | h in AllHoles([], src, dst) && Resolve(src, h).Ok? ::
      OldSlot(Resolve(src, h).value, h in ListHoles([], src, dst))
  }

  lemma WholeWithin(src: Json, dst: Json)
    requires Aligned(src, dst)
    ensures Within(PlacesOf(src, dst), src, [], src, dst)
  {
    forall h | h in ListHoles([], src, dst)
      ensures h !in MemberHoles([], src, dst) && h !in ValueHoles([], src, dst)
    {
      HolesPrefixFree([], src, dst, h, h);
    }
  }

  /** The value at a replaced hole changes, and only a replacement there can have changed it. */
  lemma {:induction false} OnlyRepWrites(d: Places, S: Store, acts: seq<Action>, q: Pointer)
    requires AllLegal(d, acts) && Run(S, acts).Some? && q !in d.lists && q !in d.members
    requires forall i :: 0 <= i < |acts| ==> !(acts[i].Rep? && acts[i].q == q)
    ensures q in Run(S, acts).value <==> q in S
    ensures q in S ==> Run(S, acts).value[q] == S[q]
    decreases |acts|
  {
    if acts != [] {
      assert Legal(d, acts[0]) && !(acts[0].Rep? && acts[0].q == q);
      OnlyRepWrites(d, Perform(S, acts[0]).value, acts[1..], q);
    }
  }

  lemma {:induction false} ReplacedDiffer(rootSrc: Json, rootDst: Json, p: Pointer, src: Json, dst: Json, q: Pointer)
    requires Resolve(rootSrc, p) == Ok(src) && Resolve(rootDst, p) == Ok(dst) && q in ReplacedHoles(p, src, dst)
    ensures Resolve(rootSrc, q).Ok? && Resolve(rootDst, q).Ok? && Resolve(rootSrc, q) != Resolve(rootDst, q)
    decreases src
  {
    if src.Obj? && dst.Obj? {
      var n :| n in src.members && n in dst.members && q in ReplacedHoles(p + [n], src.members[n], dst.members[n]);
      ResolveMember(rootSrc, p, src, n);
      ResolveMember(rootDst, p, dst, n);
      ReplacedDiffer(rootSrc, rootDst, p + [n], src.members[n], dst.members[n], q);
    }
  }

  /** A value that changes was replaced by some action. */
  lemma ReplacedBy(src: Json, dst: Json, acts: seq<Action>, S: Store, q: Pointer) returns (i: nat)
    requires var d := PlacesOf(src, dst);
             && AllLegal(d, acts) && q in d.values
             && Run(InitialStore(src, dst), acts) == Some(S) && AllDone(d, S, AllHoles([], src, dst))
    ensures i < |acts| && acts[i].Rep? && acts[i].q == q
  {
    var d, S0 := PlacesOf(src, dst), InitialStore(src, dst);
    ReplacedAreValues([], src, dst);
    HolesPrefixFree([], src, dst, q, q);
    ReplacedDiffer(src, dst, [], src, dst, q);
    assert Done(dst, S, q, false) && Pending(src, S0, q, false);
    if forall i :: 0 <= i < |acts| ==> !(acts[i].Rep? && acts[i].q == q) {
      OnlyRepWrites(d, S0, acts, q);
      assert false;
    }
    i :| 0 <= i < |acts| && acts[i].Rep? && acts[i].q == q;
  }

  /** If something called '-' is replaced, the fused patch holds that replacement and is refused. */
  lemma DashedRunRefused(src: Json, dst: Json, acts: seq<Action>, S: Store, q: Pointer)
    requires var d := PlacesOf(src, dst);
             && AllLegal(d, acts) && q in d.values && q != [] && Last(q) == "-"
             && Run(InitialStore(src, dst), acts) == Some(S) && AllDone(d, S, AllHoles([], src, dst))
    ensures Apply(src, Fuse(Ops(EncAll(acts)))).Raised?
  {
    var i := ReplacedBy(src, dst, acts, S, q);
    var ops := Ops(EncAll(acts));
    assert ops[i] == EncEntry(acts[i]).op;
    var j := FuseKeepsReplace(ops, i);
    DashRefused(src, Fuse(ops), j);
  }

  /**
   The round trip. Whatever the order in which names are visited, the patch made for two documents turns the
   first into the second, unless something called '-' is replaced: exactly then it is refused. The documents:
   objects nested to any depth with members coming, going and being replaced, and lists of anything as long as
   no two different objects or two different lists meet at the same position; values may repeat, and move
   between any of these places. Locations must not collide, and the starts of moves must fit: no operation on the
   list may have been recorded after the removal of a value that an object then gains, and none on the object after
   the removal, under a name that looks like an integer, of a value that a list then gains.
   */
  lemma DiffRoundTrip(order: Order, src: Json, dst: Json)
    requires Complete(order)
    requires Aligned(src, dst) && Separable(src, dst)
    requires ValuesTimely(order, PlacesOf(src, dst), [], [], src, dst)
    ensures FromDiff(order, src, dst).Ok?
    ensures Apply(src, FromDiff(order, src, dst).value) == Ok(dst) <==> NoDash(ReplacedHoles([], src, dst))
  {
    var d, S0 := PlacesOf(src, dst), InitialStore(src, dst);
    SeparableSeparate(src, dst);
    WholeWithin(src, dst);
    DocPending(src, S0, [], src, dst, d.lists);
    assert EncAll([]) == [];
    var acts, S := ValuesRun(order, d, src, S0, [], S0, [], src, dst);
    if NoDash(d.values) {
      DocDone(dst, S, [], src, dst, d.lists);
      RunApplies(src, dst, d, S0, acts);
      NoDashFused(d, S0, acts);
      FuseCorrect(src, Ops(EncAll(acts)));
    } else {
      var q :| q in d.values && q != [] && Last(q) == "-";
      DashedRunRefused(src, dst, acts, S, q);
    }
  }

  /** Seen from the documents: the starts fit in every order if no value is lost at the one and gained at the other. */
  lemma DisjointRoundTrip(order: Order, src: Json, dst: Json)
    requires Complete(order)
    requires Aligned(src, dst) && Separable(src, dst)
    requires MembersGained(src, dst) !! ListTaken(src, dst) && ListGained(src, dst) !! KeyedLost(src, dst)
    ensures FromDiff(order, src, dst).Ok?
    ensures Apply(src, FromDiff(order, src, dst).value) == Ok(dst) <==> NoDash(ReplacedHoles([], src, dst))
  {
    DisjointValues(order, PlacesOf(src, dst), [], [], src, dst);
    DiffRoundTrip(order, src, dst);
  }
}
