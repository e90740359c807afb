/**
 Documents nested to any depth, lists inside lists included, when no value that is removed anywhere is added
 anywhere: then no move is formed, and every recorded operation stays as it was recorded.
 */
module Nested {
  import opened Collections
  import opened Outcomes
  import opened Text
  import opened Pointers
  import opened Documents
  import opened Patches
  import opened Rewriting
  import opened Diffs

  predicate BothObj(a: Json, b: Json) { a.Obj? && b.Obj? }

  predicate BothArr(a: Json, b: Json) { a.Arr? && b.Arr? }

  /** Two elements at the same position are compared rather than exchanged. */
  predicate Descends(a: Json, b: Json) {
    a != b && (BothObj(a, b) || BothArr(a, b))
  }

  /** The values removed anywhere in the comparison. */
  ghost function RemovedValues(src: Json, dst: Json): set<Json>
    decreases src
  {
    if BothObj(src, dst) then
      (set n | n in src.members && n !in dst.members :: src.members[n])
      + set n, v | n in src.members && n in dst.members && v in RemovedValues(src.members[n], dst.members[n]) :: v
    else if BothArr(src, dst) then
      var s, t := src.items, dst.items;
      (set i | 0 <= i < |s| && (i >= |t| || (s[i] != t[i] && !Descends(s[i], t[i]))) :: s[i])
      + set i, v | 0 <= i < |s| && i < |t| && Descends(s[i], t[i]) && v in RemovedValues(s[i], t[i]) :: v
    else {}
  }

  /** The values added anywhere in the comparison. */
  ghost function AddedValues(src: Json, dst: Json): set<Json>
    decreases src
  {
    if BothObj(src, dst) then
      (set n | n in dst.members && n !in src.members :: dst.members[n])
      + set n, v | n in src.members && n in dst.members && v in AddedValues(src.members[n], dst.members[n]) :: v
    else if BothArr(src, dst) then
      var s, t := src.items, dst.items;
      (set i | 0 <= i < |t| && (i >= |s| || (s[i] != t[i] && !Descends(s[i], t[i]))) :: t[i])
      + set i, v | 0 <= i < |s| && i < |t| && Descends(s[i], t[i]) && v in AddedValues(s[i], t[i]) :: v
    else {}
  }

  /** The member is written anew as a whole. */
  predicate Rewritten(a: Json, b: Json) {
    a != b && !BothObj(a, b) && !BothArr(a, b)
  }

  /** Some member called '-' is written anew as a whole. */
  ghost predicate RewritesDash(src: Json, dst: Json)
    decreases src
  {
    if BothObj(src, dst) then
      exists n :: n in src.members && n in dst.members
                  && ((n == "-" && Rewritten(src.members[n], dst.members[n]))
                      || RewritesDash(src.members[n], dst.members[n]))
    else if BothArr(src, dst) then
      exists i :: 0 <= i < |src.items| && i < |dst.items|
                  && Descends(src.items[i], dst.items[i]) && RewritesDash(src.items[i], dst.items[i])
    else false
  }

  predicate EndsInDash(p: Pointer) {
    p != [] && Last(p) == "-"
  }

  /** The document being patched, the target, and the values removed and added. */
  datatype Task = Task(base: Json, target: Json, lost: set<Json>, gained: set<Json>)

  /** What a recorded entry may be: items from the two sets, and names '-' as the target has them. */
  ghost predicate Fits(t: Task, e: Entry) {
    match e.op
    case Remove(p) => e.item in t.lost && (EndsInDash(p) ==> Resolve(t.target, p).Raised?)
    case Add(p, _) => e.item in t.gained && (EndsInDash(p) ==> Resolve(t.target, p).Ok?)
    case Replace(_, _) => true
    case _ => false
  }

  ghost predicate AllFit(t: Task, es: seq<Entry>) {
    forall i :: 0 <= i < |es| ==> Fits(t, es[i])
  }

  predicate HasDash(es: seq<Entry>) {
    exists i :: 0 <= i < |es| && ReplacesDash(es[i].op)
  }

  /** The entries lead to document D, or have recorded a replacement of something called '-'. */
  ghost predicate Reached(t: Task, es: seq<Entry>, D: Json, dash: bool) {
    AllFit(t, es) && if dash then HasDash(es) else Apply(t.base, Ops(es)) == Ok(D)
  }

  lemma OpsConcat(a: seq<Entry>, b: seq<Entry>)
    ensures Ops(a + b) == Ops(a) + Ops(b)
  {
  }

  /** One more entry. */
  lemma ReachedNext(t: Task, es: seq<Entry>, D: Json, dash: bool, e: Entry, D': Json)
    requires Reached(t, es, D, dash) && Fits(t, e)
    requires ApplyOp(D, e.op) == Ok(D')
    ensures Reached(t, es + [e], D', dash)
  {
    if dash {
      var i :| 0 <= i < |es| && ReplacesDash(es[i].op);
      assert ReplacesDash((es + [e])[i].op);
    } else {
      OpsConcat(es, [e]);
      assert Ops([e]) == [e.op];
      ApplyConcat(t.base, Ops(es), [e.op]);
      assert [e.op][1..] == [];
      assert Apply(D', []) == Ok(D');
    }
  }

  lemma ReachedDash(t: Task, es: seq<Entry>, D: Json, dash: bool, e: Entry, D': Json)
    requires Reached(t, es, D, dash) && ReplacesDash(e.op)
    ensures Reached(t, es + [e], D', true)
  {
    assert ReplacesDash((es + [e])[|es|].op);
  }

  /** Without a value to match, recording appends. */
  lemma PlainlyRecorded(t: Task, es: seq<Entry>, p: Pointer, isPosition: bool, v: Json)
    requires AllFit(t, es) && t.lost !! t.gained
    ensures v in t.gained ==> Added(es, p, isPosition, v) == Ok(es + [Entry(Add(p, v), v)])
    ensures v in t.lost ==> Removed(es, p, v, t.target) == Ok(es + [Entry(Remove(p), v)])
  {
  }

  lemma AtToken(p: Pointer, token: string)
    ensures p + [token] != [] && Front(p + [token]) == p && Last(p + [token]) == token
  {
  }

  /** A removal inside the container at p. */
  lemma Drop(t: Task, es: seq<Entry>, D: Json, dash: bool, p: Pointer, token: string, v: Json, after: Json)
    returns (es': seq<Entry>)
    requires Reached(t, es, D, dash) && t.lost !! t.gained
    requires Resolve(D, p).Ok? && GetPart(Resolve(D, p).value, token).Ok?
    requires RemoveAt(Resolve(D, p).value, GetPart(Resolve(D, p).value, token).value) == Ok(after)
    requires v in t.lost && (token == "-" ==> Resolve(t.target, p + [token]).Raised?)
    ensures Removed(es, p + [token], v, t.target) == Ok(es')
    ensures Reached(t, es', Replant(D, p, after), dash)
  {
    AtToken(p, token);
    PlainlyRecorded(t, es, p + [token], false, v);
    var e := Entry(Remove(p + [token]), v);
    ReachedNext(t, es, D, dash, e, Replant(D, p, after));
    es' := es + [e];
  }

  /** An addition inside the container at p. */
  lemma Insert(t: Task, es: seq<Entry>, D: Json, dash: bool, p: Pointer, token: string, isPosition: bool, v: Json,
               after: Json)
    returns (es': seq<Entry>)
    requires Reached(t, es, D, dash) && t.lost !! t.gained
    requires Resolve(D, p).Ok? && GetPart(Resolve(D, p).value, token).Ok?
    requires InsertAt(Resolve(D, p).value, GetPart(Resolve(D, p).value, token).value, v) == Ok(after)
    requires v in t.gained && (token == "-" ==> Resolve(t.target, p + [token]).Ok?)
    ensures Added(es, p + [token], isPosition, v) == Ok(es')
    ensures Reached(t, es', Replant(D, p, after), dash)
  {
    AtToken(p, token);
    PlainlyRecorded(t, es, p + [token], isPosition, v);
    var e := Entry(Add(p + [token], v), v);
    ReachedNext(t, es, D, dash, e, Replant(D, p, after));
    es' := es + [e];
  }

  /** Two changes of the same container are one. */
  lemma Again(D: Json, p: Pointer, x: Json)
    requires Resolve(D, p).Ok?
    ensures Resolve(Replant(D, p, x), p) == Ok(x)
    ensures forall y :: Replant(Replant(D, p, x), p, y) == Replant(D, p, y)
  {
    ResolveReplant(D, p, x);
    forall y ensures Replant(Replant(D, p, x), p, y) == Replant(D, p, y) {
      ReplantTwice(D, p, x, y);
    }
  }

  lemma ResolveChild(root: Json, p: Pointer, doc: Json, token: string)
    requires Resolve(root, p) == Ok(doc)
    ensures Resolve(root, p + [token]) == Walk(doc, token)
    ensures Walk(doc, token).Ok? ==>
              forall x :: Replant(root, p + [token], x) == Replant(root, p, SetChild(doc, token, x))
  {
    ResolveConcat(root, p, [token]);
    if Walk(doc, token).Ok? {
      assert [token][1..] == [];
      forall x ensures Replant(root, p + [token], x) == Replant(root, p, SetChild(doc, token, x)) {
        ReplantConcat(root, p, [token], x);
        assert Replant(doc, [token], x) == SetChild(doc, token, x);
      }
    }
  }

  // ----- objects -------------------------------------------------------------------------------

  /** The members after those names have been written with the target's values. */
  function Overlay(m: map<string, Json>, names: seq<string>, dst: map<string, Json>): map<string, Json>
    requires forall n :: n in names ==> n in dst
    decreases |names|
  {
    if names == [] then m else Overlay(m[names[0] := dst[names[0]]], names[1..], dst)
  }

  lemma {:induction false} OverlayMembers(m: map<string, Json>, names: seq<string>, dst: map<string, Json>, n: string)
    requires forall n :: n in names ==> n in dst
    ensures n in Overlay(m, names, dst) <==> n in m || n in names
    ensures n in Overlay(m, names, dst) ==> Overlay(m, names, dst)[n] == if n in names then dst[n] else m[n]
    decreases |names|
  {
    if names != [] {
      OverlayMembers(m[names[0] := dst[names[0]]], names[1..], dst, n);
      assert n in names <==> n == names[0] || n in names[1..];
    }
  }

  /** The members without those names. */
  function Without(m: map<string, Json>, names: seq<string>): map<string, Json>
    decreases |names|
  {
    if names == [] then m else Without(m - {names[0]}, names[1..])
  }

  lemma {:induction false} WithoutMembers(m: map<string, Json>, names: seq<string>, n: string)
    ensures n in Without(m, names) <==> n in m && n !in names
    ensures n in Without(m, names) ==> Without(m, names)[n] == m[n]
    decreases |names|
  {
    if names != [] {
      WithoutMembers(m - {names[0]}, names[1..], n);
      assert n in names <==> n == names[0] || n in names[1..];
    }
  }

  lemma {:induction false} MembersLost(t: Task, es: seq<Entry>, D: Json, dash: bool, p: Pointer,
                                       names: seq<string>, m: map<string, Json>, src: map<string, Json>)
    returns (es': seq<Entry>)
    requires Reached(t, es, D, dash) && t.lost !! t.gained && Resolve(D, p) == Ok(Obj(m)) && Distinct(names)
    requires forall n :: n in names ==> n in m && n in src && src[n] in t.lost && Resolve(t.target, p + [n]).Raised?
    ensures RemoveMembers(es, p, names, src, t.target) == Ok(es')
    ensures Reached(t, es', Replant(D, p, Obj(Without(m, names))), dash)
    decreases |names|
  {
    if names == [] {
      es' := es;
      ResolveReplant(D, p, Obj(m));
    } else {
      var n := names[0];
      var less := m - {n};
      var one := Drop(t, es, D, dash, p, n, src[n], Obj(less));
      Again(D, p, Obj(less));
      es' := MembersLost(t, one, Replant(D, p, Obj(less)), dash, p, names[1..], less, src);
    }
  }

  lemma {:induction false} MembersCome(t: Task, es: seq<Entry>, D: Json, dash: bool, p: Pointer,
                                       names: seq<string>, m: map<string, Json>, dst: map<string, Json>)
    returns (es': seq<Entry>)
    requires Reached(t, es, D, dash) && t.lost !! t.gained && Resolve(D, p) == Ok(Obj(m))
    requires forall n :: n in names ==> n in dst && dst[n] in t.gained && Resolve(t.target, p + [n]).Ok?
    ensures AddMembers(es, p, names, dst) == Ok(es')
    ensures Reached(t, es', Replant(D, p, Obj(Overlay(m, names, dst))), dash)
    decreases |names|
  {
    if names == [] {
      es' := es;
      ResolveReplant(D, p, Obj(m));
    } else {
      var n := names[0];
      var more := m[n := dst[n]];
      var one := Insert(t, es, D, dash, p, n, false, dst[n], Obj(more));
      Again(D, p, Obj(more));
      es' := MembersCome(t, one, Replant(D, p, Obj(more)), dash, p, names[1..], more, dst);
    }
  }

  ghost predicate DashAt(n: string, a: Json, b: Json) {
    (n == "-" && Rewritten(a, b)) || RewritesDash(a, b)
  }

  /** Some member among those names is called '-' and written anew, or has such a member inside. */
  ghost predicate DashAmong(names: seq<string>, src: Json, dst: Json)
    requires BothObj(src, dst) && forall n :: n in names ==> n in src.members && n in dst.members
  {
    exists n :: n in names && DashAt(n, src.members[n], dst.members[n])
  }

  lemma DashAmongTail(names: seq<string>, src: Json, dst: Json)
    requires BothObj(src, dst) && names != [] && forall n :: n in names ==> n in src.members && n in dst.members
    ensures DashAmong(names, src, dst) <==>
            DashAt(names[0], src.members[names[0]], dst.members[names[0]]) || DashAmong(names[1..], src, dst)
  {
    forall n ensures n in names <==> n == names[0] || n in names[1..] {
    }
  }

  /** The comparison of src and dst at p removes and adds only values of the task, and dst is the target there. */
  ghost predicate Scope(t: Task, p: Pointer, src: Json, dst: Json) {
    && Resolve(t.target, p) == Ok(dst)
    && RemovedValues(src, dst) <= t.lost && AddedValues(src, dst) <= t.gained && t.lost !! t.gained
  }

  lemma ScopeMember(t: Task, p: Pointer, src: Json, dst: Json, n: string)
    requires Scope(t, p, src, dst) && BothObj(src, dst) && n in src.members && n in dst.members
    ensures Scope(t, p + [n], src.members[n], dst.members[n])
  {
    ResolveChild(t.target, p, dst, n);
  }

  lemma {:induction false} MembersCompared(order: Order, t: Task, es: seq<Entry>, D: Json, dash: bool, p: Pointer,
                                           names: seq<string>, m: map<string, Json>, src: Json, dst: Json)
    returns (es': seq<Entry>)
    requires Complete(order) && Scope(t, p, src, dst) && BothObj(src, dst) && Distinct(names)
    requires Reached(t, es, D, dash) && Resolve(D, p) == Ok(Obj(m))
    requires forall n :: n in names ==> n in m && n in src.members && n in dst.members && m[n] == src.members[n]
    ensures CompareMembers(order, t.target, es, p, names, src, dst) == Ok(es')
    ensures Reached(t, es', Replant(D, p, Obj(Overlay(m, names, dst.members))), dash || DashAmong(names, src, dst))
    decreases src, 1, |names|
  {
    if names == [] {
      es' := es;
      ResolveReplant(D, p, Obj(m));
    } else {
      var n := names[0];
      var a, b := src.members[n], dst.members[n];
      ScopeMember(t, p, src, dst, n);
      ResolveChild(D, p, Obj(m), n);
      var one := ValuesCompared(order, t, es, D, dash, p, n, a, b);
      var next := m[n := b];
      Again(D, p, Obj(next));
      DashAmongTail(names, src, dst);
      es' := MembersCompared(order, t, one, Replant(D, p, Obj(next)), dash || DashAt(n, a, b), p, names[1..], next,
                             src, dst);
    }
  }

  /** A member: compared inside, left alone, or written anew. */
  lemma ValuesCompared(order: Order, t: Task, es: seq<Entry>, D: Json, dash: bool, p: Pointer, n: string, src: Json,
                       dst: Json)
    returns (es': seq<Entry>)
    requires Complete(order) && Scope(t, p + [n], src, dst) && Reached(t, es, D, dash)
    requires Resolve(D, p).Ok? && Resolve(D, p).value.Obj? && Resolve(D, p + [n]) == Ok(src)
    ensures CompareValues(order, t.target, es, p + [n], src, dst) == Ok(es')
    ensures Reached(t, es', Replant(D, p + [n], dst), dash || DashAt(n, src, dst))
    decreases src, 4, 0
  {
    if BothObj(src, dst) || BothArr(src, dst) {
      es' := Compared(order, t, es, D, dash, p + [n], src, dst);
    } else if src == dst {
      es' := es;
      ResolveReplant(D, p + [n], dst);
    } else {
      var e := Entry(Replace(p + [n], dst), dst);
      es' := es + [e];
      AtToken(p, n);
      if n == "-" {
        ReachedDash(t, es, D, dash, e, Replant(D, p + [n], dst));
      } else {
        ResolveChild(D, p, Resolve(D, p).value, n);
        ReachedNext(t, es, D, dash, e, Replant(D, p + [n], dst));
      }
    }
  }

  /** Two objects, or two lists. */
  lemma Compared(order: Order, t: Task, es: seq<Entry>, D: Json, dash: bool, p: Pointer, src: Json, dst: Json)
    returns (es': seq<Entry>)
    requires Complete(order) && Scope(t, p, src, dst) && (BothObj(src, dst) || BothArr(src, dst))
    requires Reached(t, es, D, dash) && Resolve(D, p) == Ok(src)
    ensures BothObj(src, dst) ==> CompareDicts(order, t.target, es, p, src, dst) == Ok(es')
    ensures BothArr(src, dst) ==> CompareLists(order, t.target, es, p, 0, src, dst) == Ok(es')
    ensures Reached(t, es', Replant(D, p, dst), dash || RewritesDash(src, dst))
    decreases src, 3, 0
  {
    if BothObj(src, dst) {
      es' := DictsCompared(order, t, es, D, dash, p, src, dst);
    } else {
      assert Working(0, src.items, dst.items) == src.items;
      es' := ListsCompared(order, t, es, D, dash, p, 0, src.items, src, dst);
      DashLists(src, dst);
    }
  }

  lemma DashLists(src: Json, dst: Json)
    requires BothArr(src, dst)
    ensures DashFrom(0, src, dst) <==> RewritesDash(src, dst)
  {
    if RewritesDash(src, dst) {
      var i :| 0 <= i < |src.items| && i < |dst.items|
               && Descends(src.items[i], dst.items[i]) && RewritesDash(src.items[i], dst.items[i]);
      assert DashHere(i, src, dst);
    }
    if DashFrom(0, src, dst) {
      var i: nat :| DashHere(i, src, dst);
      assert RewritesDash(src.items[i], dst.items[i]);
    }
  }

  lemma LostScope(t: Task, p: Pointer, src: Json, dst: Json, gone: seq<string>, come: seq<string>)
    requires Scope(t, p, src, dst) && BothObj(src, dst)
    requires Lists(gone, src.members.Keys - dst.members.Keys) && Lists(come, dst.members.Keys - src.members.Keys)
    ensures forall n :: n in gone ==> n in src.members && src.members[n] in t.lost && Resolve(t.target, p + [n]).Raised?
    ensures forall n :: n in come ==> n in dst.members && dst.members[n] in t.gained && Resolve(t.target, p + [n]).Ok?
  {
    forall n | n in gone
      ensures n in src.members && src.members[n] in t.lost && Resolve(t.target, p + [n]).Raised?
    {
      assert src.members[n] in RemovedValues(src, dst);
      ResolveChild(t.target, p, dst, n);
    }
    forall n | n in come
      ensures n in dst.members && dst.members[n] in t.gained && Resolve(t.target, p + [n]).Ok?
    {
      assert dst.members[n] in AddedValues(src, dst);
      ResolveChild(t.target, p, dst, n);
    }
  }

  lemma DictsCompared(order: Order, t: Task, es: seq<Entry>, D: Json, dash: bool, p: Pointer, src: Json, dst: Json)
    returns (es': seq<Entry>)
    requires Complete(order) && Scope(t, p, src, dst) && BothObj(src, dst)
    requires Reached(t, es, D, dash) && Resolve(D, p) == Ok(src)
    ensures CompareDicts(order, t.target, es, p, src, dst) == Ok(es')
    ensures Reached(t, es', Replant(D, p, dst), dash || RewritesDash(src, dst))
    decreases src, 2, 0
  {
    var gone := order(p, src.members.Keys - dst.members.Keys);
    var come := order(p, dst.members.Keys - src.members.Keys);
    var both := order(p, src.members.Keys * dst.members.Keys);
    assert Lists(gone, src.members.Keys - dst.members.Keys) && Lists(come, dst.members.Keys - src.members.Keys);
    assert Lists(both, src.members.Keys * dst.members.Keys);
    LostScope(t, p, src, dst, gone, come);
    var m1 := Without(src.members, gone);
    var m2 := Overlay(m1, come, dst.members);
    var one := MembersLost(t, es, D, dash, p, gone, src.members, src.members);
    Again(D, p, Obj(m1));
    var two := MembersCome(t, one, Replant(D, p, Obj(m1)), dash, p, come, m1, dst.members);
    Again(D, p, Obj(m2));
    AllTogether(src.members, dst.members, gone, come, both);
    es' := MembersCompared(order, t, two, Replant(D, p, Obj(m2)), dash, p, both, m2, src, dst);
    DashBoth(both, src, dst);
  }

  lemma DashBoth(both: seq<string>, src: Json, dst: Json)
    requires BothObj(src, dst) && Lists(both, src.members.Keys * dst.members.Keys)
    ensures DashAmong(both, src, dst) <==> RewritesDash(src, dst)
  {
    if RewritesDash(src, dst) {
      var n :| n in src.members && n in dst.members && DashAt(n, src.members[n], dst.members[n]);
      assert n in src.members.Keys * dst.members.Keys;
      assert n in both;
    }
    if DashAmong(both, src, dst) {
      var n :| n in both && DashAt(n, src.members[n], dst.members[n]);
      assert n in src.members && n in dst.members;
    }
  }

  lemma AllTogether(src: map<string, Json>, dst: map<string, Json>, gone: seq<string>, come: seq<string>,
                    both: seq<string>)
    requires Lists(gone, src.Keys - dst.Keys) && Lists(come, dst.Keys - src.Keys) && Lists(both, src.Keys * dst.Keys)
    ensures var m2 := Overlay(Without(src, gone), come, dst);
            && (forall n :: n in both ==> n in m2 && m2[n] == src[n])
            && Overlay(m2, both, dst) == dst
  {
    var m2 := Overlay(Without(src, gone), come, dst);
    var end := Overlay(m2, both, dst);
    forall n
      ensures n in both ==> n in m2 && m2[n] == src[n]
      ensures (n in end <==> n in dst) && (n in end ==> end[n] == dst[n])
    {
      OverlayMembers(m2, both, dst, n);
      OverlayMembers(Without(src, gone), come, dst, n);
      WithoutMembers(src, gone, n);
    }
  }

  // ----- lists ---------------------------------------------------------------------------------

  ghost predicate DashHere(key: nat, src: Json, dst: Json)
    requires BothArr(src, dst)
  {
    key < |src.items| && key < |dst.items|
    && Descends(src.items[key], dst.items[key]) && RewritesDash(src.items[key], dst.items[key])
  }

  ghost predicate DashFrom(key: nat, src: Json, dst: Json)
    requires BothArr(src, dst)
  {
    exists i: nat :: key <= i && DashHere(i, src, dst)
  }

  /** The working list: the target's prefix, then the source's suffix. */
  function Working(key: nat, s: seq<Json>, t: seq<Json>): seq<Json> {
    t[..if key < |t| then key else |t|] + s[if key < |s| then key else |s|..]
  }

  lemma {:induction false} ListsCompared(order: Order, t: Task, es: seq<Entry>, D: Json, dash: bool, p: Pointer,
                                         key: nat, cur: seq<Json>, src: Json, dst: Json)
    returns (es': seq<Entry>)
    requires Complete(order) && Scope(t, p, src, dst) && BothArr(src, dst)
    requires Reached(t, es, D, dash) && Resolve(D, p) == Ok(Arr(cur)) && cur == Working(key, src.items, dst.items)
    ensures CompareLists(order, t.target, es, p, key, src, dst) == Ok(es')
    ensures Reached(t, es', Replant(D, p, dst), dash || DashFrom(key, src, dst))
    decreases src, 1, Max(|src.items|, |dst.items|) - key
  {
    if key >= Max(|src.items|, |dst.items|) {
      es' := es;
      ListsEnd(D, p, key, cur, src, dst);
    } else {
      var next := Working(key + 1, src.items, dst.items);
      var one := ElementCompared(order, t, es, D, dash, p, key, cur, src, dst);
      ResolveReplant(D, p, Arr(next));
      es' := ListsCompared(order, t, one, Replant(D, p, Arr(next)), dash || DashHere(key, src, dst), p, key + 1, next,
                           src, dst);
      ListsStep(order, t.target, es, one, p, key, src, dst);
      ListsBack(t, es', D, dash, p, key, src, dst);
    }
  }

  lemma ListsEnd(D: Json, p: Pointer, key: nat, cur: seq<Json>, src: Json, dst: Json)
    requires BothArr(src, dst) && key >= Max(|src.items|, |dst.items|)
    requires Resolve(D, p) == Ok(Arr(cur)) && cur == Working(key, src.items, dst.items)
    ensures Replant(D, p, dst) == D && !DashFrom(key, src, dst)
  {
    assert cur == dst.items;
    ResolveReplant(D, p, dst);
  }

  lemma ListsBack(t: Task, es: seq<Entry>, D: Json, dash: bool, p: Pointer, key: nat, src: Json, dst: Json)
    requires BothArr(src, dst) && Resolve(D, p).Ok?
    requires Resolve(Replant(D, p, Arr(Working(key + 1, src.items, dst.items))), p).Ok?
    requires Reached(t, es, Replant(Replant(D, p, Arr(Working(key + 1, src.items, dst.items))), p, dst),
                     (dash || DashHere(key, src, dst)) || DashFrom(key + 1, src, dst))
    ensures Reached(t, es, Replant(D, p, dst), dash || DashFrom(key, src, dst))
  {
    DashNext(key, src, dst);
    ReplantTwice(D, p, Arr(Working(key + 1, src.items, dst.items)), dst);
  }

  lemma DashNext(key: nat, src: Json, dst: Json)
    requires BothArr(src, dst)
    ensures DashFrom(key, src, dst) <==> DashHere(key, src, dst) || DashFrom(key + 1, src, dst)
  {
  }

  lemma ListsStep(order: Order, root: Json, es: seq<Entry>, one: seq<Entry>, p: Pointer, key: nat, src: Json, dst: Json)
    requires Complete(order) && BothArr(src, dst) && key < Max(|src.items|, |dst.items|)
    requires CompareElement(order, root, es, p, key, src, dst) == Ok(one)
    ensures CompareLists(order, root, es, p, key, src, dst) == CompareLists(order, root, one, p, key + 1, src, dst)
  {
  }

  lemma IndexPart(items: seq<Json>, i: nat)
    ensures GetPart(Arr(items), Dec(i)) == Ok(Index(i)) && Dec(i) != "-"
    ensures i < |items| ==> Walk(Arr(items), Dec(i)) == Ok(items[i])
    ensures forall x :: i < |items| ==> SetChild(Arr(items), Dec(i), x) == Arr(items[i := x])
  {
    IndexOfDec(i);
  }

  predicate Exchanged(key: nat, src: Json, dst: Json)
    requires BothArr(src, dst)
  {
    key < |src.items| && key < |dst.items| ==>
      src.items[key] != dst.items[key] && !Descends(src.items[key], dst.items[key])
  }

  lemma ElementCompared(order: Order, t: Task, es: seq<Entry>, D: Json, dash: bool, p: Pointer,
                        key: nat, cur: seq<Json>, src: Json, dst: Json)
    returns (es': seq<Entry>)
    requires Complete(order) && Scope(t, p, src, dst) && BothArr(src, dst) && key < Max(|src.items|, |dst.items|)
    requires Reached(t, es, D, dash) && Resolve(D, p) == Ok(Arr(cur)) && cur == Working(key, src.items, dst.items)
    ensures CompareElement(order, t.target, es, p, key, src, dst) == Ok(es')
    ensures Reached(t, es', Replant(D, p, Arr(Working(key + 1, src.items, dst.items))), dash || DashHere(key, src, dst))
    decreases src, 0, 1
  {
    var s, u := src.items, dst.items;
    if !Exchanged(key, src, dst) {
      es' := ElementKept(order, t, es, D, dash, p, key, cur, src, dst);
    } else if key < |s| {
      es' := ElementLost(t, es, D, dash, p, key, cur, src, dst);
      if key < |u| {
        var mid := u[..key] + s[key + 1..];
        Again(D, p, Arr(mid));
        es' := ElementGained(t, es', Replant(D, p, Arr(mid)), dash, p, key, mid, src, dst);
      }
    } else {
      es' := ElementGained(t, es, D, dash, p, key, cur, src, dst);
    }
  }

  /** The source's element is removed where the target's element belongs. */
  lemma ElementLost(t: Task, es: seq<Entry>, D: Json, dash: bool, p: Pointer, key: nat, cur: seq<Json>, src: Json,
                    dst: Json)
    returns (es': seq<Entry>)
    requires Scope(t, p, src, dst) && BothArr(src, dst) && key < |src.items| && Exchanged(key, src, dst)
    requires Reached(t, es, D, dash) && Resolve(D, p) == Ok(Arr(cur)) && cur == Working(key, src.items, dst.items)
    ensures var at := if key < |dst.items| then key else |dst.items|;
            && Removed(es, p + [Dec(at)], src.items[key], t.target) == Ok(es')
            && Reached(t, es', Replant(D, p, Arr(dst.items[..at] + src.items[key + 1..])), dash)
  {
    var s, u := src.items, dst.items;
    var at := if key < |u| then key else |u|;
    LostValue(src, dst, key);
    IndexPart(cur, at);
    var after := u[..at] + s[key + 1..];
    assert cur[..at] + cur[at + 1..] == after;
    es' := Drop(t, es, D, dash, p, Dec(at), s[key], Arr(after));
  }

  lemma LostValue(src: Json, dst: Json, key: nat)
    requires BothArr(src, dst) && key < |src.items| && Exchanged(key, src, dst)
    ensures src.items[key] in RemovedValues(src, dst)
  {
  }

  lemma GainedValue(src: Json, dst: Json, key: nat)
    requires BothArr(src, dst) && key < |dst.items| && Exchanged(key, src, dst)
    ensures dst.items[key] in AddedValues(src, dst)
  {
  }

  lemma GainedWorking(cur: seq<Json>, key: nat, s: seq<Json>, t: seq<Json>)
    requires key < |t| && cur == t[..key] + s[if key + 1 < |s| then key + 1 else |s|..]
    ensures key <= |cur| && cur[..key] + [t[key]] + cur[key..] == Working(key + 1, s, t)
  {
  }

  lemma ElementGained(t: Task, es: seq<Entry>, D: Json, dash: bool, p: Pointer, key: nat, cur: seq<Json>, src: Json,
                      dst: Json)
    returns (es': seq<Entry>)
    requires Scope(t, p, src, dst) && BothArr(src, dst) && key < |dst.items| && Exchanged(key, src, dst)
    requires Reached(t, es, D, dash) && Resolve(D, p) == Ok(Arr(cur))
    requires cur == dst.items[..key] + src.items[if key + 1 < |src.items| then key + 1 else |src.items|..]
    ensures Added(es, p + [Dec(key)], true, dst.items[key]) == Ok(es')
    ensures Reached(t, es', Replant(D, p, Arr(Working(key + 1, src.items, dst.items))), dash)
  {
    var next := Working(key + 1, src.items, dst.items);
    var v := dst.items[key];
    GainedValue(src, dst, key);
    IndexPart(cur, key);
    GainedWorking(cur, key, src.items, dst.items);
    es' := Insert(t, es, D, dash, p, Dec(key), true, v, Arr(next));
  }

  /** An element that both have at this position: the same, or compared inside. */
  lemma ElementKept(order: Order, t: Task, es: seq<Entry>, D: Json, dash: bool, p: Pointer, key: nat, cur: seq<Json>,
                    src: Json, dst: Json)
    returns (es': seq<Entry>)
    requires Complete(order) && Scope(t, p, src, dst) && BothArr(src, dst) && !Exchanged(key, src, dst)
    requires Reached(t, es, D, dash) && Resolve(D, p) == Ok(Arr(cur)) && cur == Working(key, src.items, dst.items)
    ensures CompareElement(order, t.target, es, p, key, src, dst) == Ok(es')
    ensures Reached(t, es', Replant(D, p, Arr(Working(key + 1, src.items, dst.items))), dash || DashHere(key, src, dst))
    decreases src, 0, 0
  {
    var a, b := src.items[key], dst.items[key];
    assert cur[key] == a;
    assert cur[key := b] == Working(key + 1, src.items, dst.items);
    if a == b {
      es' := es;
      assert cur[key := b] == cur;
      ResolveReplant(D, p, Arr(cur));
    } else {
      IndexPart(cur, key);
      IndexPart(dst.items, key);
      ResolveChild(t.target, p, dst, Dec(key));
      ResolveChild(D, p, Arr(cur), Dec(key));
      ScopeElement(src, dst, key);
      es' := Compared(order, t, es, D, dash, p + [Dec(key)], a, b);
    }
  }

  lemma ScopeElement(src: Json, dst: Json, key: nat)
    requires BothArr(src, dst) && key < |src.items| && key < |dst.items| && Descends(src.items[key], dst.items[key])
    ensures RemovedValues(src.items[key], dst.items[key]) <= RemovedValues(src, dst)
    ensures AddedValues(src.items[key], dst.items[key]) <= AddedValues(src, dst)
  {
  }

  // ----- the theorem ---------------------------------------------------------------------------

  /** A name '-' that was removed is not in the target, and one that was added is: they are never fused. */
  lemma {:induction false} NothingDashedFused(t: Task, es: seq<Entry>)
    requires AllFit(t, es)
    ensures !FusesDash(Ops(es))
    decreases |es|
  {
    if es != [] {
      var ops := Ops(es);
      assert ops[1..] == Ops(es[1..]);
      NothingDashedFused(t, es[1..]);
      if Fusable(ops) {
        assert Fits(t, es[0]) && Fits(t, es[1]);
        assert ops[2..] == Ops(es[2..]);
        NothingDashedFused(t, es[2..]);
      }
    }
  }

  lemma DashedRefused(doc: Json, es: seq<Entry>)
    requires HasDash(es)
    ensures Apply(doc, Fuse(Ops(es))).Raised?
  {
    var i :| 0 <= i < |es| && ReplacesDash(es[i].op);
    var j := FuseKeepsReplace(Ops(es), i);
    DashRefused(doc, Fuse(Ops(es)), j);
  }

  /**
   When no removed value is also an added one, the patch turns the source into the target whatever the nesting
   and whatever the order in which names are visited, unless some member called '-' is written anew as a
   whole: exactly then it is refused.
   */
  lemma NestedRoundTrip(order: Order, src: Json, dst: Json)
    requires Complete(order) && RemovedValues(src, dst) !! AddedValues(src, dst)
    ensures FromDiff(order, src, dst).Ok?
    ensures Apply(src, FromDiff(order, src, dst).value) == Ok(dst) <==> !RewritesDash(src, dst)
  {
    var t := Task(src, dst, RemovedValues(src, dst), AddedValues(src, dst));
    assert Ops([]) == [];
    if BothObj(src, dst) || BothArr(src, dst) {
      var es := Compared(order, t, [], src, false, [], src, dst);
      NothingDashedFused(t, es);
      if RewritesDash(src, dst) {
        DashedRefused(src, es);
      } else {
        FuseCorrect(src, Ops(es));
      }
    } else if src != dst {
      var e := Entry(Replace([], dst), dst);
      assert [] + [e] == [e];
      assert Ops([e]) == [e.op] && [e.op][1..] == [];
      assert Fuse([e.op]) == [e.op];
      assert Apply(dst, []) == Ok(dst);
      assert Apply(src, [e.op]) == Ok(dst);
    }
  }
}
