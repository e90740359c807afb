/**
 One recorded addition or removal, on documents where locations do not collide: the recorded list keeps
 leading from the source document to the document reached so far, moves and renumbering included.
 */
module Recording {
  import opened Outcomes
  import opened Text
  import opened Pointers
  import opened Documents
  import opened Patches
  import opened Rewriting
  import opened Diffs
  import opened Stores

  function Enc(l: Loc): Pointer {
    match l
    case Elem(c, i) => c + [Str(i)]
    case Whole(q) => q
  }

  /** The recorded operation that an action stands for. */
  function EncEntry(a: Action): Entry {
    match a
    case Rem(l, v) => Entry(Remove(Enc(l)), v)
    case Ins(l, v) => Entry(Add(Enc(l), v), v)
    case Mov(l, t, v) => Entry(Move(Enc(l), Enc(t)), v)
    case Rep(q, v) => Entry(Replace(q, v), v)
  }

  function EncAll(acts: seq<Action>): (es: seq<Entry>)
    ensures |es| == |acts|
    ensures forall i :: 0 <= i < |acts| ==> es[i] == EncEntry(acts[i])
  {
    if acts == [] then [] else [EncEntry(acts[0])] + EncAll(acts[1..])
  }

  lemma EncAllConcat(a: seq<Action>, b: seq<Action>)
    ensures EncAll(a + b) == EncAll(a) + EncAll(b)
  {
  }

  lemma EncAllSpliced(acts: seq<Action>, i: nat, mid: seq<Action>, tail: seq<Action>)
    requires i <= |acts|
    ensures EncAll(acts[..i] + mid + tail) == EncAll(acts)[..i] + EncAll(mid) + EncAll(tail)
  {
    EncAllFront(acts, i);
    EncAllConcat(acts[..i], mid);
    EncAllConcat(acts[..i] + mid, tail);
  }

  lemma EncAllFront(acts: seq<Action>, i: nat)
    requires i <= |acts|
    ensures EncAll(acts[..i]) == EncAll(acts)[..i] && EncAll(acts[i..]) == EncAll(acts)[i..]
  {
    assert acts == acts[..i] + acts[i..];
    EncAllConcat(acts[..i], acts[i..]);
  }

  lemma EncAllTail(acts: seq<Action>, i: nat, more: seq<Action>)
    requires i <= |acts|
    ensures EncAll(acts[i..] + more) == EncAll(acts)[i..] + EncAll(more)
    ensures EncAll(acts[i..]) == EncAll(acts)[i..]
  {
    EncAllFront(acts, i);
    EncAllConcat(acts[i..], more);
  }

  lemma EncAllOne(a: Action)
    ensures EncAll([a]) == [EncEntry(a)]
  {
  }

  lemma EncAllInit(acts: seq<Action>)
    requires acts != []
    ensures EncAll(acts[..|acts| - 1]) == EncAll(acts)[..|acts| - 1]
  {
  }

  /** A move is recorded unless it would lead to where it starts. */
  function MovUnlessSame(l: Loc, t: Loc, v: Json): seq<Action> {
    if l == t then [] else [Mov(l, t, v)]
  }

  lemma EncMov(l: Loc, t: Loc, v: Json)
    requires Enc(l) == Enc(t) ==> l == t
    ensures EncAll(MovUnlessSame(l, t, v)) == MoveUnlessSame(Enc(l), Enc(t), v)
  {
  }

  /**
   The places where operations happen: lists, members that only one document has, and replaced values; the values that
   lists lose, and those that members lose whose name looks like an integer.
   */
  datatype Places = Places(
    lists: set<Pointer>, members: set<Pointer>, values: set<Pointer>, taken: set<Json>, keyed: set<Json>, dst: Json)

  /**
   Joined parent paths tell the lists apart, and from the objects whose members come and go; and the target document
   has the lists and the objects.
   */
  ghost predicate Separate(d: Places) {
    && (forall c, c' {:trigger PathText(c), PathText(c')} ::
          c in d.lists && c' in d.lists && PathText(c) == PathText(c') ==> c == c')
    && (forall q :: q in d.members ==> q != [])
    && (forall c, q {:trigger PathText(c), Front(q)} :: c in d.lists && q in d.members ==>
          PathText(Front(q)) != PathText(c))
    && (forall c {:trigger Resolve(d.dst, c)} :: c in d.lists ==> Resolve(d.dst, c).Ok? && Resolve(d.dst, c).value.Arr?)
    && (forall q {:trigger Front(q)} :: q in d.members ==>
          Resolve(d.dst, Front(q)).Ok? && Resolve(d.dst, Front(q)).value.Obj?)
  }

  predicate LegalLoc(d: Places, l: Loc) {
    match l
    case Elem(c, _) => c in d.lists
    case Whole(q) => q in d.members
  }

  predicate IntNamed(l: Loc) {
    l.Whole? && l.q != [] && PyInt(Last(l.q)).Some?
  }

  /** A removal is only ever of a value the source document loses at such a place. */
  predicate Legal(d: Places, a: Action) {
    match a
    case Rem(l, v) => LegalLoc(d, l) && (l.Elem? ==> v in d.taken) && (IntNamed(l) ==> v in d.keyed)
    case Ins(l, _) => LegalLoc(d, l)
    case Mov(l, t, _) => LegalLoc(d, l) && LegalLoc(d, t)
    case Rep(q, _) => q in d.values
  }

  predicate AllLegal(d: Places, acts: seq<Action>) {
    forall i :: 0 <= i < |acts| ==> Legal(d, acts[i])
  }

  lemma LegalSpliced(d: Places, acts: seq<Action>, i: nat, mid: seq<Action>, l: Loc, t: Loc, v: Json)
    requires i <= |acts| && AllLegal(d, acts) && AllLegal(d, mid) && LegalLoc(d, l) && LegalLoc(d, t)
    ensures AllLegal(d, acts[..i] + mid + MovUnlessSame(l, t, v))
  {
  }

  // ----- the undo methods compute the renumbered locations ----------------------------------

  lemma EncElem(c: Pointer, i: int)
    ensures Enc(Elem(c, i)) != [] && Front(Enc(Elem(c, i))) == c && Last(Enc(Elem(c, i))) == Str(i)
    ensures ParentPath(Enc(Elem(c, i))) == PathText(c) && IntKey(Enc(Elem(c, i))) == Ok(i)
    ensures forall k :: WithKey(Enc(Elem(c, i)), k) == Enc(Elem(c, k))
  {
    PyIntStr(i);
  }

  lemma UndoIsPastOneEnd(d: Places, l: Loc, m: Loc)
    requires Separate(d) && LegalLoc(d, l) && LegalLoc(d, m) && l.Elem?
    ensures var (m', l') := RemPastTake(l, m);
            UndoRemoveTaking(Enc(m), PathText(l.c), l.i) == Ok((Enc(m'), l'.i)) && l'.Elem? && l'.c == l.c
            && LegalLoc(d, m')
    ensures var (m', l') := RemPastPut(l, m);
            UndoRemovePutting(Enc(m), PathText(l.c), l.i) == Ok((Enc(m'), l'.i)) && l'.Elem? && l'.c == l.c
            && LegalLoc(d, m')
    ensures var (m', l') := InsPastTake(l, m);
            UndoAddTaking(Enc(m), PathText(l.c), l.i) == Ok((Enc(m'), l'.i)) && l'.Elem? && l'.c == l.c
            && LegalLoc(d, m')
    ensures var (m', l') := InsPastPut(l, m);
            UndoAddPutting(Enc(m), PathText(l.c), l.i) == Ok((Enc(m'), l'.i)) && l'.Elem? && l'.c == l.c
            && LegalLoc(d, m')
  {
    if m.Elem? {
      ListPaths(d, l.c, m.c);
      UndoElem(l.c, l.i, m.c, m.i);
    } else {
      assert ParentPath(m.q) == PathText(Front(m.q)) != PathText(l.c);
    }
  }

  lemma ListPaths(d: Places, c: Pointer, c': Pointer)
    requires Separate(d) && c in d.lists && c' in d.lists
    ensures PathText(c) == PathText(c') <==> c == c'
  {
  }

  lemma UndoElem(c: Pointer, i: int, c': Pointer, j: int)
    requires PathText(c) == PathText(c') <==> c == c'
    ensures var (m', l') := RemPastTake(Elem(c, i), Elem(c', j));
            l'.Elem? && UndoRemoveTaking(Enc(Elem(c', j)), PathText(c), i) == Ok((Enc(m'), l'.i))
    ensures var (m', l') := RemPastPut(Elem(c, i), Elem(c', j));
            l'.Elem? && UndoRemovePutting(Enc(Elem(c', j)), PathText(c), i) == Ok((Enc(m'), l'.i))
    ensures var (m', l') := InsPastTake(Elem(c, i), Elem(c', j));
            l'.Elem? && UndoAddTaking(Enc(Elem(c', j)), PathText(c), i) == Ok((Enc(m'), l'.i))
    ensures var (m', l') := InsPastPut(Elem(c, i), Elem(c', j));
            l'.Elem? && UndoAddPutting(Enc(Elem(c', j)), PathText(c), i) == Ok((Enc(m'), l'.i))
  {
    EncElem(c', j);
  }

  lemma UndoIsPast(d: Places, ins: bool, l: Loc, a: Action)
    requires Separate(d) && LegalLoc(d, l) && l.Elem? && Legal(d, a)
    ensures var (a', l') := Past(ins, l, a);
            && Undo(if ins then Adding else Removing, EncEntry(a).op, PathText(l.c), l.i) == Ok((EncEntry(a').op, l'.i))
            && l'.Elem? && l'.c == l.c && Legal(d, a') && EncEntry(a').item == EncEntry(a).item
  {
    match a {
      case Rem(m, w) => UndoIsPastOneEnd(d, l, m);
      case Ins(m, w) => UndoIsPastOneEnd(d, l, m);
      case Mov(m, t, w) =>
        UndoIsPastOneEnd(d, l, m);
        var l1 := if ins then InsPastTake(l, m).1 else RemPastTake(l, m).1;
        UndoIsPastOneEnd(d, l1, t);
      case Rep(_, _) =>
    }
  }

  lemma {:induction false} UndoAllIsPastAll(d: Places, ins: bool, l: Loc, acts: seq<Action>)
    requires Separate(d) && LegalLoc(d, l) && l.Elem? && AllLegal(d, acts)
    ensures var (acts', l') := PastAll(ins, l, acts);
            && l'.Elem? && l'.c == l.c && AllLegal(d, acts')
            && UndoAll(if ins then Adding else Removing, EncAll(acts), PathText(l.c), l.i) == Ok((EncAll(acts'), l'.i))
    decreases |acts|
  {
    if acts != [] {
      UndoIsPast(d, ins, l, acts[0]);
      var (a, l') := Past(ins, l, acts[0]);
      UndoAllIsPastAll(d, ins, l', acts[1..]);
      assert EncAll(acts)[1..] == EncAll(acts[1..]);
      var (rest, _) := PastAll(ins, l', acts[1..]);
      assert ([a] + rest)[1..] == rest;
    }
  }

  lemma EncInjective(d: Places, l: Loc, m: Loc)
    requires Separate(d) && LegalLoc(d, l) && LegalLoc(d, m) && Enc(l) == Enc(m)
    ensures l == m
  {
    if l.Elem? {
      EncElem(l.c, l.i);
    }
    if m.Elem? {
      EncElem(m.c, m.i);
    }
  }

  // ----- recording an addition ------------------------------------------------------------

  lemma SplitRun(S0: Store, acts: seq<Action>, i: nat)
    requires i < |acts| && Run(S0, acts).Some?
    ensures acts == acts[..i] + ([acts[i]] + acts[i + 1..])
    ensures Run(S0, acts[..i]).Some? && Perform(Run(S0, acts[..i]).value, acts[i]).Some?
    ensures Run(Perform(Run(S0, acts[..i]).value, acts[i]).value, acts[i + 1..]) == Run(S0, acts)
  {
    var tail := [acts[i]] + acts[i + 1..];
    assert acts == acts[..i] + tail;
    RunConcat(S0, acts[..i], tail);
    assert tail[1..] == acts[i + 1..];
  }

  /** The actions after the removal at i has been carried to the end and joined with an addition at t. */
  function JoinedAddition(acts: seq<Action>, i: nat, t: Loc, v: Json): seq<Action>
    requires i < |acts| && acts[i].Rem?
  {
    var (post, l) := PastAll(false, acts[i].l, acts[i + 1..]);
    acts[..i] + post + MovUnlessSame(l, t, v)
  }

  lemma JoinedAdditionRuns(S0: Store, acts: seq<Action>, S: Store, i: nat, t: Loc, v: Json)
    returns (S': Store)
    requires i < |acts| && acts[i].Rem? && acts[i].v == v
    requires Run(S0, acts) == Some(S) && Put(S, t, v).Some?
    ensures Run(S0, JoinedAddition(acts, i, t, v)) == Some(S') && Below(S', Put(S, t, v).value)
  {
    var l := acts[i].l;
    SplitRun(S0, acts, i);
    var Si := Run(S0, acts[..i]).value;
    PastRun(false, Si, l, v, acts[i + 1..]);
    var (post, l') := PastAll(false, l, acts[i + 1..]);
    RunConcat(S0, acts[..i], post);
    S' := EndsInMove(S0, acts[..i] + post, S, l', t, v);
  }

  /** A removal at the end, joined with the addition behind it. */
  lemma EndsInMove(S0: Store, acts: seq<Action>, S: Store, l: Loc, t: Loc, v: Json) returns (S': Store)
    requires Run(S0, acts).Some? && Take(Run(S0, acts).value, l, v) == Some(S) && Put(S, t, v).Some?
    ensures Run(S0, acts + MovUnlessSame(l, t, v)) == Some(S') && Below(S', Put(S, t, v).value)
  {
    var S1 := Run(S0, acts).value;
    if l == t {
      S' := S1;
      TakePutSame(S1, t, v);
      assert acts + [] == acts;
    } else {
      S' := Put(S, t, v).value;
      RunConcat(S0, acts, [Mov(l, t, v)]);
      RunOne(S1, Mov(l, t, v));
    }
  }

  /** The renumbered operations and the renumbered pointer are what the loop over the later ones computes. */
  ghost predicate Renumbers(ins: bool, l: Loc, acts: seq<Action>) {
    var (acts', l') := PastAll(ins, l, acts);
    if l.Elem? then
      && l'.Elem? && IntKey(Enc(l)) == Ok(l.i) && WithKey(Enc(l), l'.i) == Enc(l')
      && (acts == [] ==> Enc(l') == Enc(l))
      && UndoAll(if ins then Adding else Removing, EncAll(acts), ParentPath(Enc(l)), l.i)
         == Ok((EncAll(acts'), l'.i))
    else
      acts' == acts && l' == l
  }

  lemma PastIsUndo(d: Places, ins: bool, l: Loc, acts: seq<Action>)
    requires Separate(d) && LegalLoc(d, l) && AllLegal(d, acts)
    ensures Renumbers(ins, l, acts)
    ensures AllLegal(d, PastAll(ins, l, acts).0) && LegalLoc(d, PastAll(ins, l, acts).1)
  {
    if l.Elem? {
      UndoAllIsPastAll(d, ins, l, acts);
      EncElem(l.c, l.i);
    } else {
      PastWhole(ins, l.q, acts);
    }
  }

  // ----- removals that are not renumbered, or should not be -------------------------------------

  /** The operation is at a place with that joined parent path; a test or a copy is never recorded. */
  predicate Touches(op: Op, path: string) {
    match op
    case Remove(ptr) => ParentPath(ptr) == path
    case Add(ptr, _) => ParentPath(ptr) == path
    case Move(source, ptr) => ParentPath(source) == path || ParentPath(ptr) == path
    case Replace(_, _) => false
    case _ => true
  }

  predicate Elsewhere(es: seq<Entry>, path: string) {
    forall i :: 0 <= i < |es| ==> !Touches(es[i].op, path)
  }

  /** No operation recorded after the one at i touches its object or list. */
  predicate LastThere(es: seq<Entry>, i: nat)
    requires i < |es|
  {
    Elsewhere(es[i + 1..], ParentPath(es[i].op.ptr))
  }

  /**
   The removal at i can become the start of a move. The loop over the later operations is skipped when the value goes to
   a member, which is right for a list position if none of them is on that list. It is not skipped when a list gains the
   value of a member whose name looks like an integer, which is right if it changes nothing.
   */
  ghost predicate Fits(d: Places, es: seq<Entry>, i: nat, isPosition: bool)
    requires i < |es|
  {
    var taken := es[i].op.ptr;
    taken != [] &&
    if Front(taken) in d.lists then isPosition || LastThere(es, i)
    else if isPosition && PyInt(Last(taken)).Some? then
      LastThere(es, i) && (i == |es| - 1 || Str(PyInt(Last(taken)).value) == Last(taken))
    else true
  }

  /** The addition of v is not taken for the end of a move whose start does not fit. */
  ghost predicate Timely(d: Places, es: seq<Entry>, isPosition: bool, v: Json) {
    v in (if isPosition then d.keyed else d.taken) ==>
      match LastMatch(es, Removing, v)
      case None => true
      case Some(i) => Fits(d, es, i, isPosition)
  }

  /** A loop over operations elsewhere changes nothing. */
  lemma {:induction false} UndoAllElsewhere(es: seq<Entry>, path: string, key: int)
    requires Elsewhere(es, path)
    ensures UndoAll(Removing, es, path, key) == Ok((es, key))
    decreases |es|
  {
    if es != [] {
      UndoAllElsewhere(es[1..], path, key);
      assert [Entry(es[0].op, es[0].item)] + es[1..] == es;
    }
  }

  /** What is recorded for a removal that becomes the start of a move without renumbering. */
  lemma JoinedAsIs(acts: seq<Action>, i: nat, t: Loc, v: Json)
    requires i < |acts| && acts[i].Rem? && (Enc(acts[i].l) == Enc(t) ==> acts[i].l == t)
    requires var (post, l) := PastAll(false, acts[i].l, acts[i + 1..]);
             EncAll(post) == EncAll(acts[i + 1..]) && l == acts[i].l
    ensures EncAll(JoinedAddition(acts, i, t, v)) ==
            EncAll(acts)[..i] + EncAll(acts)[i + 1..] + MoveUnlessSame(Enc(acts[i].l), Enc(t), v)
  {
    var (post, l) := PastAll(false, acts[i].l, acts[i + 1..]);
    EncAllSpliced(acts, i, post, MovUnlessSame(l, t, v));
    EncMov(l, t, v);
    EncAllTail(acts, i + 1, []);
  }

  /** Operations elsewhere leave a list position as it is, and it leaves them as they are. */
  lemma PastElsewhere(d: Places, l: Loc, acts: seq<Action>)
    requires Separate(d) && LegalLoc(d, l) && l.Elem? && AllLegal(d, acts)
    requires Elsewhere(EncAll(acts), PathText(l.c))
    ensures var (post, l') := PastAll(false, l, acts); EncAll(post) == EncAll(acts) && l' == l
  {
    UndoAllElsewhere(EncAll(acts), PathText(l.c), l.i);
    UndoAllIsPastAll(d, false, l, acts);
  }

  /** A list position is given to a member. */
  lemma ElemToMember(d: Places, acts: seq<Action>, i: nat, t: Loc, v: Json)
    requires Separate(d) && AllLegal(d, acts) && i < |acts| && acts[i].Rem? && acts[i].l.Elem? && LegalLoc(d, t)
             && t.Whole?
    requires LastThere(EncAll(acts), i)
    ensures AddedFor(EncAll(acts), i, Enc(t), false, v) == Ok(EncAll(JoinedAddition(acts, i, t, v)))
  {
    var l, later := acts[i].l, acts[i + 1..];
    assert Legal(d, acts[i]);
    EncElem(l.c, l.i);
    EncAllTail(acts, i + 1, []);
    PastElsewhere(d, l, later);
    if Enc(l) == Enc(t) { EncInjective(d, l, t); }
    JoinedAsIs(acts, i, t, v);
    MemberAsIs(EncAll(acts), i, Enc(t), v);
  }

  lemma MemberAsIs(es: seq<Entry>, i: nat, ptr: Pointer, v: Json)
    requires i < |es| && es[i].op.ptr != []
    ensures AddedFor(es, i, ptr, false, v) == Ok(es[..i] + es[i + 1..] + MoveUnlessSame(es[i].op.ptr, ptr, v))
  {
  }

  /** A list gains the value of a member whose name looks like an integer. */
  lemma KeyedToElem(d: Places, acts: seq<Action>, i: nat, t: Loc, v: Json)
    requires Separate(d) && AllLegal(d, acts) && i < |acts| && acts[i].Rem? && IntNamed(acts[i].l) && LegalLoc(d, t)
             && t.Elem?
    requires LastThere(EncAll(acts), i)
    requires var q := acts[i].l.q; i == |acts| - 1 || Str(PyInt(Last(q)).value) == Last(q)
    ensures AddedFor(EncAll(acts), i, Enc(t), true, v) == Ok(EncAll(JoinedAddition(acts, i, t, v)))
  {
    var q, later := acts[i].l.q, acts[i + 1..];
    assert Legal(d, acts[i]);
    EncAllTail(acts, i + 1, []);
    KeyedAsIs(EncAll(acts), i, Enc(t), v);
    PastWhole(false, q, later);
    if Enc(acts[i].l) == Enc(t) { EncInjective(d, acts[i].l, t); }
    JoinedAsIs(acts, i, t, v);
  }

  lemma KeyedAsIs(es: seq<Entry>, i: nat, ptr: Pointer, v: Json)
    requires i < |es| && es[i].op.ptr != [] && PyInt(Last(es[i].op.ptr)).Some?
    requires var q := es[i].op.ptr; i == |es| - 1 || Str(PyInt(Last(q)).value) == Last(q)
    requires LastThere(es, i)
    ensures AddedFor(es, i, ptr, true, v) == Ok(es[..i] + es[i + 1..] + MoveUnlessSame(es[i].op.ptr, ptr, v))
  {
    var q := es[i].op.ptr;
    UndoAllElsewhere(es[i + 1..], ParentPath(q), PyInt(Last(q)).value);
    assert q == Front(q) + [Last(q)];
  }

  lemma JoinedAdditionText(acts: seq<Action>, i: nat, t: Loc, v: Json)
    requires i < |acts| && acts[i].Rem?
    requires Enc(acts[i].l) != [] && (t.Elem? ==> (PyInt(Last(Enc(acts[i].l))).Some? <==> acts[i].l.Elem?))
    requires acts[i].l.Elem? ==> t.Elem?
    requires Renumbers(false, acts[i].l, acts[i + 1..])
    requires Enc(PastAll(false, acts[i].l, acts[i + 1..]).1) == Enc(t) ==>
               PastAll(false, acts[i].l, acts[i + 1..]).1 == t
    ensures AddedFor(EncAll(acts), i, Enc(t), t.Elem?, v) == Ok(EncAll(JoinedAddition(acts, i, t, v)))
  {
    var l := acts[i].l;
    var (post, l') := PastAll(false, l, acts[i + 1..]);
    EncAllSpliced(acts, i, post, MovUnlessSame(l', t, v));
    EncMov(l', t, v);
    assert EncAll(acts)[i].op.ptr == Enc(l);
    JoinedTail(acts, i);
  }

  lemma JoinedTail(acts: seq<Action>, i: nat)
    requires i < |acts| && acts[i].Rem? && Renumbers(false, acts[i].l, acts[i + 1..])
    ensures var (l, later) := (acts[i].l, acts[i + 1..]);
            var (post, l') := PastAll(false, l, later);
            && EncAll(acts)[i + 1..] == EncAll(later)
            && (l.Elem? ==> l'.Elem? && Rekeyed(Enc(l), EncAll(later), l'.i) == Enc(l'))
            && (!l.Elem? ==> post == later)
  {
    EncAllTail(acts, i + 1, []);
  }

  lemma LocFacts(d: Places, l: Loc)
    requires Separate(d) && LegalLoc(d, l)
    ensures Enc(l) != [] && (PyInt(Last(Enc(l))).Some? <==> l.Elem? || IntNamed(l))
  {
    if l.Elem? {
      EncElem(l.c, l.i);
    }
  }

  /** The pairs whose start is renumbered if it is a list position, and is not otherwise. */
  lemma PlainJoin(d: Places, acts: seq<Action>, i: nat, t: Loc, v: Json)
    requires Separate(d) && AllLegal(d, acts) && LegalLoc(d, t)
    requires i < |acts| && acts[i].Rem?
    requires if t.Elem? then !IntNamed(acts[i].l) else acts[i].l.Whole?
    ensures AddedFor(EncAll(acts), i, Enc(t), t.Elem?, v) == Ok(EncAll(JoinedAddition(acts, i, t, v)))
  {
    var l := acts[i].l;
    var later := acts[i + 1..];
    assert Legal(d, acts[i]);
    PastIsUndo(d, false, l, later);
    LocFacts(d, l);
    var (post, l') := PastAll(false, l, later);
    if Enc(l') == Enc(t) {
      EncInjective(d, l', t);
    }
    JoinedAdditionText(acts, i, t, v);
  }

  lemma JoinLegal(d: Places, acts: seq<Action>, i: nat, t: Loc, v: Json)
    requires Separate(d) && AllLegal(d, acts) && LegalLoc(d, t) && i < |acts| && acts[i].Rem?
    ensures AllLegal(d, JoinedAddition(acts, i, t, v))
  {
    assert Legal(d, acts[i]);
    PastIsUndo(d, false, acts[i].l, acts[i + 1..]);
    var (post, l') := PastAll(false, acts[i].l, acts[i + 1..]);
    LegalSpliced(d, acts, i, post, l', t, v);
  }

  lemma AddedJoins(d: Places, acts: seq<Action>, t: Loc, v: Json)
    requires Separate(d) && AllLegal(d, acts) && LegalLoc(d, t) && Timely(d, EncAll(acts), t.Elem?, v)
    requires LastMatch(EncAll(acts), Removing, v).Some?
    ensures var i := LastMatch(EncAll(acts), Removing, v).value;
            && acts[i].Rem? && acts[i].v == v
            && AddedFor(EncAll(acts), i, Enc(t), t.Elem?, v) == Ok(EncAll(JoinedAddition(acts, i, t, v)))
            && AllLegal(d, JoinedAddition(acts, i, t, v))
  {
    var i := LastMatch(EncAll(acts), Removing, v).value;
    FoundAction(acts, Removing, v);
    JoinLegal(d, acts, i, t, v);
    var l := acts[i].l;
    assert Legal(d, acts[i]) && EncAll(acts)[i].op.ptr == Enc(l);
    if l.Elem? && t.Whole? {
      EncElem(l.c, l.i);
      ElemToMember(d, acts, i, t, v);
    } else if IntNamed(l) && t.Elem? {
      KeyedToElem(d, acts, i, t, v);
    } else {
      PlainJoin(d, acts, i, t, v);
    }
  }

  lemma Appended(d: Places, S0: Store, acts: seq<Action>, S: Store, a: Action)
    requires Run(S0, acts) == Some(S) && Perform(S, a).Some? && AllLegal(d, acts) && Legal(d, a)
    ensures EncAll(acts + [a]) == EncAll(acts) + [EncEntry(a)]
    ensures AllLegal(d, acts + [a]) && Run(S0, acts + [a]) == Perform(S, a)
  {
    EncAllConcat(acts, [a]);
    EncAllOne(a);
    RunConcat(S0, acts, [a]);
    RunOne(S, a);
  }

  lemma FoundAction(acts: seq<Action>, kind: Kind, v: Json)
    requires LastMatch(EncAll(acts), kind, v).Some?
    ensures var a := acts[LastMatch(EncAll(acts), kind, v).value];
            a.v == v && (if kind == Adding then a.Ins? else a.Rem?)
  {
    var i := LastMatch(EncAll(acts), kind, v).value;
    assert EncAll(acts)[i] == EncEntry(acts[i]);
  }

  lemma AddedRuns(d: Places, S0: Store, acts: seq<Action>, S: Store, t: Loc, v: Json)
    returns (acts': seq<Action>, S': Store)
    requires Separate(d) && AllLegal(d, acts) && LegalLoc(d, t)
    requires Run(S0, acts) == Some(S) && Put(S, t, v).Some?
    requires Timely(d, EncAll(acts), t.Elem?, v)
    ensures Added(EncAll(acts), Enc(t), t.Elem?, v) == Ok(EncAll(acts'))
    ensures AllLegal(d, acts') && Run(S0, acts') == Some(S') && Below(S', Put(S, t, v).value)
  {
    var found := LastMatch(EncAll(acts), Removing, v);
    if found.None? {
      acts', S' := acts + [Ins(t, v)], Put(S, t, v).value;
      Appended(d, S0, acts, S, Ins(t, v));
    } else {
      AddedJoins(d, acts, t, v);
      acts' := JoinedAddition(acts, found.value, t, v);
      S' := JoinedAdditionRuns(S0, acts, S, found.value, t, v);
    }
  }

  // ----- recording a removal --------------------------------------------------------------

  lemma ContainerOf(d: Places, l: Loc)
    requires Separate(d) && LegalLoc(d, l) && (l.Elem? ==> l.i >= 0)
    ensures Enc(l) != [] && ToLast(d.dst, Enc(l)).Ok?
    ensures ToLast(d.dst, Enc(l)).value.0.Arr? <==> l.Elem?
  {
    match l {
      case Elem(c, i) =>
        EncElem(c, i);
        IndexOfDec(i);
      case Whole(q) =>
        assert Resolve(d.dst, Front(q)).Ok?;
    }
  }

  /** The actions after the addition at i has been carried past the removal at m, and joined with it. */
  function JoinedRemoval(acts: seq<Action>, i: nat, m: Loc, v: Json): seq<Action>
    requires i < |acts| && acts[i].Ins?
  {
    PastShape(true, acts[i].l, acts[i + 1..] + [Rem(m, v)]);
    var (post, l) := PastAll(true, acts[i].l, acts[i + 1..] + [Rem(m, v)]);
    var last := |post| - 1;
    acts[..i] + post[..last] + MovUnlessSame(post[last].l, l, v)
  }

  lemma JoinedRemovalRuns(S0: Store, acts: seq<Action>, S: Store, i: nat, m: Loc, v: Json)
    returns (S': Store)
    requires i < |acts| && acts[i].Ins? && acts[i].v == v
    requires Run(S0, acts) == Some(S) && Take(S, m, v).Some?
    ensures Run(S0, JoinedRemoval(acts, i, m, v)) == Some(S') && Below(S', Take(S, m, v).value)
  {
    var l, removal := acts[i].l, Rem(m, v);
    var post := acts[i + 1..] + [removal];
    SplitRun(S0, acts, i);
    var Si := Run(S0, acts[..i]).value;
    RunConcat(Put(Si, l, v).value, acts[i + 1..], [removal]);
    RunOne(S, removal);
    PastRun(true, Si, l, v, post);
    PastShape(true, l, post);
    var (post', l') := PastAll(true, l, post);
    var last := |post| - 1;
    var mid, m' := post'[..last], post'[last].l;
    assert post[last] == removal && post'[last] == Rem(m', v);
    assert post' == mid + [Rem(m', v)];
    RunConcat(Si, mid, [Rem(m', v)]);
    var S1 := Run(Si, mid).value;
    RunOne(S1, Rem(m', v));
    RunConcat(S0, acts[..i], mid);
    assert Put(Take(S1, m', v).value, l', v) == Take(S, m, v);
    S' := EndsInMove(S0, acts[..i] + mid, Take(S1, m', v).value, m', l', v);
  }

  lemma JoinedRemovalElem(acts: seq<Action>, i: nat, m: Loc, v: Json, dst: Json)
    requires i < |acts| && acts[i].Ins? && acts[i].l.Elem?
    requires Enc(acts[i].l) != [] && ToLast(dst, Enc(acts[i].l)).Ok? && ToLast(dst, Enc(acts[i].l)).value.0.Arr?
    requires Renumbers(true, acts[i].l, acts[i + 1..] + [Rem(m, v)])
    requires var (post, l') := PastAll(true, acts[i].l, acts[i + 1..] + [Rem(m, v)]);
             && post[|post| - 1].Rem? && post[|post| - 1].v == v
             && (Enc(post[|post| - 1].l) == Enc(l') ==> post[|post| - 1].l == l')
    ensures RemovedFor(EncAll(acts), i, Enc(m), v, dst) == Ok(EncAll(JoinedRemoval(acts, i, m, v)))
  {
    var l := acts[i].l;
    var (post, l') := PastAll(true, l, acts[i + 1..] + [Rem(m, v)]);
    JoinedRemovalEnc(acts, i, m, v);
    RemovalTail(acts, i, Rem(m, v));
    EncAllInit(post);
    assert EncAll(acts)[i].op.ptr == Enc(l);
    RemovedForElem(EncAll(acts), i, Enc(m), v, dst, EncAll(post), l.i, l'.i);
  }

  lemma JoinedRemovalText(acts: seq<Action>, i: nat, m: Loc, v: Json, dst: Json)
    requires i < |acts| && acts[i].Ins?
    requires Enc(acts[i].l) != [] && ToLast(dst, Enc(acts[i].l)).Ok?
    requires ToLast(dst, Enc(acts[i].l)).value.0.Arr? <==> acts[i].l.Elem?
    requires Renumbers(true, acts[i].l, acts[i + 1..] + [Rem(m, v)])
    requires var (post, l') := PastAll(true, acts[i].l, acts[i + 1..] + [Rem(m, v)]);
             && post[|post| - 1].Rem? && post[|post| - 1].v == v
             && (Enc(post[|post| - 1].l) == Enc(l') ==> post[|post| - 1].l == l')
    ensures RemovedFor(EncAll(acts), i, Enc(m), v, dst) == Ok(EncAll(JoinedRemoval(acts, i, m, v)))
  {
    if acts[i].l.Elem? {
      JoinedRemovalElem(acts, i, m, v, dst);
    } else {
      JoinedRemovalWhole(acts, i, m, v, dst);
    }
  }

  lemma JoinedRemovalWhole(acts: seq<Action>, i: nat, m: Loc, v: Json, dst: Json)
    requires i < |acts| && acts[i].Ins? && !acts[i].l.Elem?
    requires Enc(acts[i].l) != [] && ToLast(dst, Enc(acts[i].l)).Ok? && !ToLast(dst, Enc(acts[i].l)).value.0.Arr?
    requires Renumbers(true, acts[i].l, acts[i + 1..] + [Rem(m, v)])
    requires var (post, l') := PastAll(true, acts[i].l, acts[i + 1..] + [Rem(m, v)]);
             post[|post| - 1].Rem? && (Enc(post[|post| - 1].l) == Enc(l') ==> post[|post| - 1].l == l')
    ensures RemovedFor(EncAll(acts), i, Enc(m), v, dst) == Ok(EncAll(JoinedRemoval(acts, i, m, v)))
  {
    JoinedRemovalEnc(acts, i, m, v);
    RemovalTail(acts, i, Rem(m, v));
    EncAllTail(acts, i + 1, []);
    assert EncAll(acts)[i].op.ptr == Enc(acts[i].l);
    RemovedAsIs(EncAll(acts), i, Enc(m), v, dst);
  }

  lemma RemovedAsIs(es: seq<Entry>, i: nat, ptr: Pointer, v: Json, dst: Json)
    requires i < |es| && es[i].op.ptr != [] && ToLast(dst, es[i].op.ptr).Ok? && !ToLast(dst, es[i].op.ptr).value.0.Arr?
    ensures RemovedFor(es, i, ptr, v, dst) == Ok(es[..i] + es[i + 1..] + MoveUnlessSame(ptr, es[i].op.ptr, v))
  {
  }

  lemma JoinedRemovalEnc(acts: seq<Action>, i: nat, m: Loc, v: Json)
    requires i < |acts| && acts[i].Ins?
    requires Renumbers(true, acts[i].l, acts[i + 1..] + [Rem(m, v)])
    requires var (post, l') := PastAll(true, acts[i].l, acts[i + 1..] + [Rem(m, v)]);
             && post[|post| - 1].Rem? && (Enc(post[|post| - 1].l) == Enc(l') ==> post[|post| - 1].l == l')
    ensures var (post, l') := PastAll(true, acts[i].l, acts[i + 1..] + [Rem(m, v)]);
            var last := |post| - 1;
            EncAll(JoinedRemoval(acts, i, m, v))
            == EncAll(acts)[..i] + EncAll(post[..last]) + MoveUnlessSame(Enc(post[last].l), Enc(l'), v)
  {
    var (post, l') := PastAll(true, acts[i].l, acts[i + 1..] + [Rem(m, v)]);
    var last := |post| - 1;
    EncAllSpliced(acts, i, post[..last], MovUnlessSame(post[last].l, l', v));
    EncMov(post[last].l, l', v);
  }

  lemma RemovalTail(acts: seq<Action>, i: nat, removal: Action)
    requires i < |acts| && acts[i].Ins? && Renumbers(true, acts[i].l, acts[i + 1..] + [removal])
    ensures var (l, later) := (acts[i].l, acts[i + 1..] + [removal]);
            var (post, l') := PastAll(true, l, later);
            && EncAll(acts)[i + 1..] + [EncEntry(removal)] == EncAll(later)
            && (l.Elem? ==> l'.Elem? && Rekeyed(Enc(l), EncAll(later), l'.i) == Enc(l'))
            && (!l.Elem? ==> post == later && l' == l && post[..|later| - 1] == acts[i + 1..])
  {
    EncAllTail(acts, i + 1, [removal]);
    EncAllOne(removal);
  }

  /** The facts about the renumbered removal that the joined text and its legality rest on. */
  lemma CarriedRemoval(d: Places, acts: seq<Action>, i: nat, m: Loc, v: Json)
    requires Separate(d) && AllLegal(d, acts) && Legal(d, Rem(m, v))
    requires i < |acts| && acts[i].Ins?
    ensures var later := acts[i + 1..] + [Rem(m, v)];
            var (post, l') := PastAll(true, acts[i].l, later);
            var last := post[|post| - 1];
            && Renumbers(true, acts[i].l, later)
            && last.Rem? && last.v == v && LegalLoc(d, last.l) && LegalLoc(d, l') && AllLegal(d, post)
            && (Enc(last.l) == Enc(l') ==> last.l == l')
  {
    var l := acts[i].l;
    var later := acts[i + 1..] + [Rem(m, v)];
    assert Legal(d, acts[i]) && AllLegal(d, later);
    PastIsUndo(d, true, l, later);
    PastShape(true, l, later);
    var (post, l') := PastAll(true, l, later);
    var last := post[|post| - 1];
    assert later[|post| - 1] == Rem(m, v) && Legal(d, last);
    if Enc(last.l) == Enc(l') {
      EncInjective(d, last.l, l');
    }
  }

  lemma RemovedJoins(d: Places, acts: seq<Action>, i: nat, m: Loc, v: Json)
    requires Separate(d) && AllLegal(d, acts) && Legal(d, Rem(m, v))
    requires i < |acts| && acts[i].Ins? && acts[i].v == v && (acts[i].l.Elem? ==> acts[i].l.i >= 0)
    ensures RemovedFor(EncAll(acts), i, Enc(m), v, d.dst) == Ok(EncAll(JoinedRemoval(acts, i, m, v)))
  {
    CarriedRemoval(d, acts, i, m, v);
    assert Legal(d, acts[i]);
    ContainerOf(d, acts[i].l);
    JoinedRemovalText(acts, i, m, v, d.dst);
  }

  lemma RemovedJoinsLegal(d: Places, acts: seq<Action>, i: nat, m: Loc, v: Json)
    requires Separate(d) && AllLegal(d, acts) && Legal(d, Rem(m, v))
    requires i < |acts| && acts[i].Ins?
    ensures AllLegal(d, JoinedRemoval(acts, i, m, v))
  {
    CarriedRemoval(d, acts, i, m, v);
    var (post, l') := PastAll(true, acts[i].l, acts[i + 1..] + [Rem(m, v)]);
    var last := |post| - 1;
    LegalSpliced(d, acts, i, post[..last], post[last].l, l', v);
  }

  lemma RemovedRuns(d: Places, S0: Store, acts: seq<Action>, S: Store, m: Loc, v: Json)
    returns (acts': seq<Action>, S': Store)
    requires Separate(d) && AllLegal(d, acts) && Legal(d, Rem(m, v))
    requires Run(S0, acts) == Some(S) && Take(S, m, v).Some?
    ensures Removed(EncAll(acts), Enc(m), v, d.dst) == Ok(EncAll(acts'))
    ensures AllLegal(d, acts') && Run(S0, acts') == Some(S') && Below(S', Take(S, m, v).value)
  {
    var found := LastMatch(EncAll(acts), Adding, v);
    if found.None? {
      acts', S' := acts + [Rem(m, v)], Take(S, m, v).value;
      Appended(d, S0, acts, S, Rem(m, v));
    } else {
      FoundAction(acts, Adding, v);
      SplitRun(S0, acts, found.value);
      RemovedJoins(d, acts, found.value, m, v);
      RemovedJoinsLegal(d, acts, found.value, m, v);
      acts' := JoinedRemoval(acts, found.value, m, v);
      S' := JoinedRemovalRuns(S0, acts, S, found.value, m, v);
    }
  }
}
