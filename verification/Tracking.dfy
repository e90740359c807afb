/**
 The whole comparison, followed hole by hole: what has been compared holds the target's values, what has
 not been compared is still as it was in the source document.
 */
module Tracking {
  import opened Collections
  import opened Outcomes
  import opened Text
  import opened Pointers
  import opened Documents
  import opened Rewriting
  import opened Diffs
  import opened Stores
  import opened Recording
  import opened Holes
  import opened Timing

  function Vals(cells: seq<Cell>): (r: seq<Json>)
    ensures |r| == |cells|
    ensures forall i :: 0 <= i < |cells| ==> r[i] == cells[i].v
  {
    seq(|cells|, i requires 0 <= i < |cells| => cells[i].v)
  }

  function OldSlot(v: Json, isList: bool): Slot {
    if isList && v.Arr? then Many(seq(|v.items|, i requires 0 <= i < |v.items| => Cell(v.items[i], false)))
    else One(Cell(v, false))
  }

  ghost predicate Holds(slot: Slot, v: Json, isList: bool) {
    if isList then slot.Many? && v.Arr? && Vals(slot.cells) == v.items
    else slot.One? && slot.cell.v == v
  }

  /** Hole h is as it was in the source document. */
  ghost predicate Pending(src: Json, S: Store, h: Pointer, isList: bool) {
    if Resolve(src, h).Ok? then h in S && S[h] == OldSlot(Resolve(src, h).value, isList)
    else h !in S
  }

  /** Hole h is as the target document wants it. */
  ghost predicate Done(dst: Json, S: Store, h: Pointer, isList: bool) {
    if Resolve(dst, h).Ok? then h in S && Holds(S[h], Resolve(dst, h).value, isList)
    else h !in S || S[h].Gone?
  }

  /** Outside H nothing changed, except that cells may have become less fresh. */
  ghost predicate Kept(S: Store, S': Store, H: set<Pointer>) {
    forall k :: k !in H ==> (k in S <==> k in S') && (k in S ==> BelowSlot(S'[k], S[k]))
  }

  lemma KeptTrans(S: Store, S1: Store, S2: Store, H1: set<Pointer>, H2: set<Pointer>)
    requires Kept(S, S1, H1) && Kept(S1, S2, H2)
    ensures Kept(S, S2, H1 + H2)
  {
    forall k | k !in H1 + H2
      ensures (k in S <==> k in S2) && (k in S ==> BelowSlot(S2[k], S[k]))
    {
      if k in S {
        BelowTrans(S2[k], S1[k], S[k]);
      }
    }
  }

  lemma BelowTrans(a: Slot, b: Slot, c: Slot)
    requires BelowSlot(a, b) && BelowSlot(b, c)
    ensures BelowSlot(a, c)
  {
  }

  lemma BelowRefl(a: Slot)
    ensures BelowSlot(a, a)
  {
  }

  lemma KeptPending(src: Json, S: Store, S': Store, H: set<Pointer>, h: Pointer, isList: bool)
    requires Kept(S, S', H) && h !in H && Pending(src, S, h, isList)
    ensures Pending(src, S', h, isList)
  {
    if Resolve(src, h).Ok? {
      var slot := S[h];
      if slot.Many? {
        assert S'[h].cells == slot.cells;
      }
    }
  }

  lemma KeptDone(dst: Json, S: Store, S': Store, H: set<Pointer>, h: Pointer, isList: bool)
    requires Kept(S, S', H) && h !in H && Done(dst, S, h, isList)
    ensures Done(dst, S', h, isList)
  {
    if Resolve(dst, h).Ok? && isList {
      assert Vals(S'[h].cells) == Vals(S[h].cells);
    }
  }

  lemma KeptBelow(S: Store, T: Store, S': Store, k: Pointer)
    requires Below(S', T) && T.Keys == S.Keys + {k} && forall j :: j in S && j != k ==> T[j] == S[j]
    ensures Kept(S, S', {k})
  {
  }

  // ----- lists ---------------------------------------------------------------------------------

  function Min(a: nat, b: nat): nat {
    if a < b then a else b
  }

  /** The target's first key elements, then the source's from key on; the latter have been there all along. */
  ghost predicate ListAt(slot: Slot, key: nat, src: seq<Json>, dst: seq<Json>) {
    && slot.Many?
    && Vals(slot.cells) == dst[..Min(key, |dst|)] + src[Min(key, |src|)..]
    && forall j :: Min(key, |dst|) <= j < |slot.cells| ==> !slot.cells[j].added
  }

  lemma ListAtBelow(a: Slot, b: Slot, key: nat, src: seq<Json>, dst: seq<Json>)
    requires BelowSlot(a, b) && ListAt(b, key, src, dst)
    ensures ListAt(a, key, src, dst)
  {
    assert Vals(a.cells) == Vals(b.cells);
  }

  /** The target's elements before the position, then the source's behind it; the target's element is still to come. */
  ghost predicate ListOpen(slot: Slot, key: nat, src: seq<Json>, dst: seq<Json>) {
    && slot.Many? && key < |dst| && Vals(slot.cells) == dst[..key] + src[Min(key + 1, |src|)..]
    && (forall j :: key <= j < |slot.cells| ==> !slot.cells[j].added)
  }

  lemma ListOpenBelow(a: Slot, b: Slot, key: nat, src: seq<Json>, dst: seq<Json>)
    requires BelowSlot(a, b) && ListOpen(b, key, src, dst)
    ensures ListOpen(a, key, src, dst)
  {
    assert Vals(a.cells) == Vals(b.cells);
  }

  lemma ValsCut(cells: seq<Cell>, i: nat)
    requires i < |cells|
    ensures Vals(Cut(cells, i)) == Vals(cells)[..i] + Vals(cells)[i + 1..]
  {
  }

  /** Removing the source's next element where the target's element belongs. */
  lemma ListAtTake(S: Store, p: Pointer, key: nat, src: seq<Json>, dst: seq<Json>)
    requires p in S && ListAt(S[p], key, src, dst) && key < |src|
    ensures Take(S, Elem(p, Min(key, |dst|)), src[key]).Some?
    ensures var T := Take(S, Elem(p, Min(key, |dst|)), src[key]).value;
            && (key >= |dst| ==> ListAt(T[p], key + 1, src, dst))
            && (key < |dst| ==> ListOpen(T[p], key, src, dst))
  {
    var cells, i := S[p].cells, Min(key, |dst|);
    TakenVals(cells, i, dst[..i], src[key..]);
    assert src[key..][1..] == src[key + 1..];
  }

  lemma TakenVals(cells: seq<Cell>, i: nat, front: seq<Json>, rest: seq<Json>)
    requires Vals(cells) == front + rest && i == |front| && rest != []
    ensures i < |cells| && cells[i].v == rest[0] && Vals(Cut(cells, i)) == front + rest[1..]
  {
    assert Vals(cells)[i] == rest[0];
    ValsCut(cells, i);
  }

  /** Adding the target's next element. */
  lemma ListAtPut(S: Store, p: Pointer, key: nat, src: seq<Json>, dst: seq<Json>)
    requires p in S && ListOpen(S[p], key, src, dst)
    ensures Put(S, Elem(p, key), dst[key]).Some?
    ensures ListAt(Put(S, Elem(p, key), dst[key]).value[p], key + 1, src, dst)
  {
    var cells := S[p].cells;
    assert |Vals(cells)| >= key;
    assert Vals(Paste(cells, key, Cell(dst[key], true))) == dst[..key + 1] + src[Min(key + 1, |src|)..];
  }

  lemma RemovedElement(d: Places, S0: Store, acts: seq<Action>, S: Store, p: Pointer, i: nat, v: Json)
    returns (acts': seq<Action>, S': Store)
    requires Separate(d) && AllLegal(d, acts) && p in d.lists && v in d.taken
    requires Run(S0, acts) == Some(S) && Take(S, Elem(p, i), v).Some?
    ensures Removed(EncAll(acts), p + [Dec(i)], v, d.dst) == Ok(EncAll(acts'))
    ensures AllLegal(d, acts') && Run(S0, acts') == Some(S')
    ensures Kept(S, S', {p}) && p in S' && BelowSlot(S'[p], Take(S, Elem(p, i), v).value[p])
  {
    acts', S' := RemovedRuns(d, S0, acts, S, Elem(p, i), v);
    KeptBelow(S, Take(S, Elem(p, i), v).value, S', p);
  }

  lemma AddedElement(d: Places, S0: Store, acts: seq<Action>, S: Store, p: Pointer, i: nat, v: Json)
    returns (acts': seq<Action>, S': Store)
    requires Separate(d) && AllLegal(d, acts) && p in d.lists && Timely(d, EncAll(acts), true, v)
    requires Run(S0, acts) == Some(S) && Put(S, Elem(p, i), v).Some?
    ensures Added(EncAll(acts), p + [Dec(i)], true, v) == Ok(EncAll(acts'))
    ensures AllLegal(d, acts') && Run(S0, acts') == Some(S')
    ensures Kept(S, S', {p}) && p in S' && BelowSlot(S'[p], Put(S, Elem(p, i), v).value[p])
  {
    acts', S' := AddedRuns(d, S0, acts, S, Elem(p, i), v);
    KeptBelow(S, Put(S, Elem(p, i), v).value, S', p);
  }

  ghost predicate ListOk(d: Places, p: Pointer, src: Json, dst: Json) {
    && src.Arr? && dst.Arr? && p in d.lists && Aligned(src, dst)
    && ListTaken(src, dst) <= d.taken
  }

  lemma KeptRefl(S: Store, H: set<Pointer>)
    ensures Kept(S, S, H)
  {
    forall k | k in S ensures BelowSlot(S[k], S[k]) { BelowRefl(S[k]); }
  }

  /** A position only the target has. */
  lemma GrownElement(d: Places, S0: Store, acts: seq<Action>, S: Store, p: Pointer, key: nat, s: seq<Json>,
                     t: seq<Json>)
    returns (acts': seq<Action>, S': Store)
    requires Separate(d) && AllLegal(d, acts) && p in d.lists
    requires Run(S0, acts) == Some(S) && p in S && ListOpen(S[p], key, s, t)
    requires Timely(d, EncAll(acts), true, t[key])
    ensures Added(EncAll(acts), p + [Dec(key)], true, t[key]) == Ok(EncAll(acts'))
    ensures AllLegal(d, acts') && Run(S0, acts') == Some(S')
    ensures Kept(S, S', {p}) && p in S' && ListAt(S'[p], key + 1, s, t)
  {
    ListAtPut(S, p, key, s, t);
    acts', S' := AddedElement(d, S0, acts, S, p, key, t[key]);
    ListAtBelow(S'[p], Put(S, Elem(p, key), t[key]).value[p], key + 1, s, t);
  }

  /** A position whose value the source loses. */
  lemma LostElement(d: Places, S0: Store, acts: seq<Action>, S: Store, p: Pointer, key: nat, s: seq<Json>, t: seq<Json>)
    returns (acts': seq<Action>, S': Store)
    requires Separate(d) && AllLegal(d, acts) && p in d.lists
    requires key < |s| && s[key] in d.taken && Run(S0, acts) == Some(S) && p in S && ListAt(S[p], key, s, t)
    ensures Removed(EncAll(acts), p + [Dec(Min(key, |t|))], s[key], d.dst) == Ok(EncAll(acts'))
    ensures AllLegal(d, acts') && Run(S0, acts') == Some(S')
    ensures Kept(S, S', {p}) && p in S'
    ensures key >= |t| ==> ListAt(S'[p], key + 1, s, t)
    ensures key < |t| ==> ListOpen(S'[p], key, s, t)
  {
    var i := Min(key, |t|);
    assert Take(S, Elem(p, i), s[key]).Some? by { ListAtTake(S, p, key, s, t); }
    acts', S' := RemovedElement(d, S0, acts, S, p, i, s[key]);
    LostBelow(S, S'[p], p, key, s, t);
  }

  lemma LostBelow(S: Store, slot: Slot, p: Pointer, key: nat, s: seq<Json>, t: seq<Json>)
    requires p in S && ListAt(S[p], key, s, t) && key < |s|
    requires Take(S, Elem(p, Min(key, |t|)), s[key]).Some?
    requires BelowSlot(slot, Take(S, Elem(p, Min(key, |t|)), s[key]).value[p])
    ensures key >= |t| ==> ListAt(slot, key + 1, s, t)
    ensures key < |t| ==> ListOpen(slot, key, s, t)
  {
    ListAtTake(S, p, key, s, t);
    var T := Take(S, Elem(p, Min(key, |t|)), s[key]).value;
    if key < |t| {
      ListOpenBelow(slot, T[p], key, s, t);
    } else {
      ListAtBelow(slot, T[p], key + 1, s, t);
    }
  }

  lemma ElementRuns(order: Order, d: Places, S0: Store, acts: seq<Action>, S: Store, p: Pointer, key: nat, src: Json,
                    dst: Json)
    returns (acts': seq<Action>, S': Store)
    requires Complete(order) && Separate(d) && AllLegal(d, acts) && ListOk(d, p, src, dst)
    requires key < Max(|src.items|, |dst.items|) && ElementTimely(d, EncAll(acts), p, key, src, dst)
    requires Run(S0, acts) == Some(S) && p in S && ListAt(S[p], key, src.items, dst.items)
    ensures CompareElement(order, d.dst, EncAll(acts), p, key, src, dst) == Ok(EncAll(acts'))
    ensures AllLegal(d, acts') && Run(S0, acts') == Some(S')
    ensures Kept(S, S', {p}) && p in S' && ListAt(S'[p], key + 1, src.items, dst.items)
  {
    var s, t := src.items, dst.items;
    if key < |s| && SameAt(src, dst, key) {
      acts', S' := acts, S;
      assert t[..key] + s[key..] == t[..key + 1] + s[key + 1..];
      KeptRefl(S, {p});
    } else if key < |s| {
      assert s[key] in ListTaken(src, dst);
      acts', S' := LostElement(d, S0, acts, S, p, key, s, t);
      if key < |t| {
        var acts1, S1 := acts', S';
        acts', S' := GrownElement(d, S0, acts1, S1, p, key, s, t);
        KeptTrans(S, S1, S', {p}, {p});
      }
    } else {
      assert s[Min(key + 1, |s|)..] == [] == s[Min(key, |s|)..];
      acts', S' := GrownElement(d, S0, acts, S, p, key, s, t);
    }
  }

  lemma TimelyStep(order: Order, d: Places, es: seq<Entry>, es1: seq<Entry>, p: Pointer, key: nat, src: Json, dst: Json)
    requires Complete(order) && src.Arr? && dst.Arr? && key < Max(|src.items|, |dst.items|)
    requires ListsTimely(order, d, es, p, key, src, dst)
    ensures ElementTimely(d, es, p, key, src, dst)
    ensures CompareElement(order, d.dst, es, p, key, src, dst) == Ok(es1) ==>
              ListsTimely(order, d, es1, p, key + 1, src, dst)
  {
  }

  lemma ListsStep(order: Order, root: Json, es: seq<Entry>, es1: seq<Entry>, p: Pointer, key: nat, src: Json, dst: Json)
    requires Complete(order) && src.Arr? && dst.Arr? && key < Max(|src.items|, |dst.items|)
    requires CompareElement(order, root, es, p, key, src, dst) == Ok(es1)
    ensures CompareLists(order, root, es, p, key, src, dst) == CompareLists(order, root, es1, p, key + 1, src, dst)
  {
  }

  lemma ListsEnd(slot: Slot, key: nat, src: Json, dst: Json)
    requires src.Arr? && dst.Arr? && key >= Max(|src.items|, |dst.items|) && ListAt(slot, key, src.items, dst.items)
    ensures Holds(slot, dst, true)
  {
    assert dst.items[..|dst.items|] + src.items[|src.items|..] == dst.items;
  }

  /** At every step of a list, the working list is the target's prefix followed by the source's suffix. */
  lemma {:induction false} ListsRun(order: Order, d: Places, S0: Store, acts: seq<Action>, S: Store, p: Pointer,
                                    key: nat, src: Json, dst: Json)
    returns (acts': seq<Action>, S': Store)
    requires Complete(order) && Separate(d) && AllLegal(d, acts) && ListOk(d, p, src, dst)
    requires ListsTimely(order, d, EncAll(acts), p, key, src, dst)
    requires Run(S0, acts) == Some(S) && p in S && ListAt(S[p], key, src.items, dst.items)
    ensures CompareLists(order, d.dst, EncAll(acts), p, key, src, dst) == Ok(EncAll(acts'))
    ensures AllLegal(d, acts') && Run(S0, acts') == Some(S')
    ensures Kept(S, S', {p}) && p in S' && Holds(S'[p], dst, true)
    decreases Max(|src.items|, |dst.items|) - key
  {
    if key >= Max(|src.items|, |dst.items|) {
      acts', S' := acts, S;
      ListsEnd(S[p], key, src, dst);
      KeptRefl(S, {p});
    } else {
      TimelyStep(order, d, EncAll(acts), [], p, key, src, dst);
      var acts1, S1 := ElementRuns(order, d, S0, acts, S, p, key, src, dst);
      TimelyStep(order, d, EncAll(acts), EncAll(acts1), p, key, src, dst);
      ListsStep(order, d.dst, EncAll(acts), EncAll(acts1), p, key, src, dst);
      acts', S' := ListsRun(order, d, S0, acts1, S1, p, key + 1, src, dst);
      KeptTrans(S, S1, S', {p}, {p});
    }
  }

  // ----- objects ---------------------------------------------------------------------------------

  ghost function MemberPlaces(p: Pointer, names: seq<string>): set<Pointer> {
    set n | n in names :: p + [n]
  }

  lemma MemberPlacesTail(p: Pointer, names: seq<string>)
    requires names != [] && Distinct(names)
    ensures MemberPlaces(p, names) == {p + [names[0]]} + MemberPlaces(p, names[1..])
    ensures p + [names[0]] !in MemberPlaces(p, names[1..])
  {
    forall n | n in names
      ensures n == names[0] || n in names[1..]
    {
    }
    forall n | n in names[1..]
      ensures p + [n] != p + [names[0]]
    {
      assert (p + [n])[|p|] == n;
    }
  }

  lemma {:induction false} RemoveMembersRun(d: Places, S0: Store, acts: seq<Action>, S: Store, p: Pointer,
                                            names: seq<string>, src: map<string, Json>)
    returns (acts': seq<Action>, S': Store)
    requires Separate(d) && AllLegal(d, acts) && Run(S0, acts) == Some(S) && Distinct(names)
    requires forall n :: n in names ==> n in src && p + [n] in d.members && (PyInt(n).Some? ==> src[n] in d.keyed)
    requires forall n :: n in names ==> p + [n] in S && S[p + [n]] == One(Cell(src[n], false))
    ensures RemoveMembers(EncAll(acts), p, names, src, d.dst) == Ok(EncAll(acts'))
    ensures AllLegal(d, acts') && Run(S0, acts') == Some(S') && Kept(S, S', MemberPlaces(p, names))
    ensures forall n :: n in names ==> p + [n] in S' && S'[p + [n]].Gone?
    decreases |names|
  {
    if names == [] {
      acts', S' := acts, S;
      KeptRefl(S, {});
    } else {
      var q := p + [names[0]];
      MemberPlacesTail(p, names);
      var T := Take(S, Whole(q), src[names[0]]).value;
      var acts1, S1 := RemovedRuns(d, S0, acts, S, Whole(q), src[names[0]]);
      KeptBelow(S, T, S1, q);
      forall n | n in names[1..]
        ensures p + [n] in S1 && S1[p + [n]] == One(Cell(src[n], false))
      {
        assert p + [n] in MemberPlaces(p, names[1..]);
      }
      acts', S' := RemoveMembersRun(d, S0, acts1, S1, p, names[1..], src);
      KeptTrans(S, S1, S', {q}, MemberPlaces(p, names[1..]));
    }
  }

  lemma {:induction false} AddMembersRun(d: Places, S0: Store, acts: seq<Action>, S: Store, p: Pointer,
                                         names: seq<string>, dst: map<string, Json>)
    returns (acts': seq<Action>, S': Store)
    requires Separate(d) && AllLegal(d, acts) && Run(S0, acts) == Some(S) && Distinct(names)
    requires forall n :: n in names ==> n in dst && p + [n] in d.members && p + [n] !in S
    requires AddsTimely(d, EncAll(acts), p, names, dst)
    ensures AddMembers(EncAll(acts), p, names, dst) == Ok(EncAll(acts'))
    ensures AllLegal(d, acts') && Run(S0, acts') == Some(S') && Kept(S, S', MemberPlaces(p, names))
    ensures forall n :: n in names ==> p + [n] in S' && S'[p + [n]].One? && S'[p + [n]].cell.v == dst[n]
    decreases |names|
  {
    if names == [] {
      acts', S' := acts, S;
      KeptRefl(S, {});
    } else {
      var q := p + [names[0]];
      MemberPlacesTail(p, names);
      var T := Put(S, Whole(q), dst[names[0]]).value;
      var acts1, S1 := AddedRuns(d, S0, acts, S, Whole(q), dst[names[0]]);
      KeptBelow(S, T, S1, q);
      forall n | n in names[1..]
        ensures p + [n] !in S1
      {
        assert p + [n] in MemberPlaces(p, names[1..]);
      }
      acts', S' := AddMembersRun(d, S0, acts1, S1, p, names[1..], dst);
      KeptTrans(S, S1, S', {q}, MemberPlaces(p, names[1..]));
    }
  }

  /** The comparison of src and dst at p stays within the places of d. */
  ghost predicate Within(d: Places, source: Json, p: Pointer, src: Json, dst: Json) {
    && Resolve(source, p) == Ok(src) && Resolve(d.dst, p) == Ok(dst) && Aligned(src, dst)
    && ListHoles(p, src, dst) <= d.lists && MemberHoles(p, src, dst) <= d.members
    && ReplacedHoles(p, src, dst) <= d.values
    && MemberHoles(p, src, dst) !! d.lists && ValueHoles(p, src, dst) !! d.lists
    && ListTaken(src, dst) <= d.taken && KeyedLost(src, dst) <= d.keyed
  }

  ghost predicate AllPending(d: Places, source: Json, S: Store, H: set<Pointer>) {
    forall h :: h in H ==> Pending(source, S, h, h in d.lists)
  }

  ghost predicate AllDone(d: Places, S: Store, H: set<Pointer>) {
    forall h :: h in H ==> Done(d.dst, S, h, h in d.lists)
  }

  lemma WithinChild(d: Places, source: Json, p: Pointer, src: Json, dst: Json, n: string)
    requires Within(d, source, p, src, dst) && src.Obj? && dst.Obj? && Common(src, dst, n)
    ensures Within(d, source, p + [n], src.members[n], dst.members[n])
  {
    ChildHolesWithin(p, src, dst, n);
    ResolveMember(source, p, src, n);
    ResolveMember(d.dst, p, dst, n);
  }

  lemma ResolveMember(root: Json, p: Pointer, obj: Json, n: string)
    requires Resolve(root, p) == Ok(obj) && obj.Obj?
    ensures Resolve(root, p + [n]) == if n in obj.members then Ok(obj.members[n]) else Raised(PointerError)
  {
    ResolveConcat(root, p, [n]);
    assert [n][1..] == [];
  }

  lemma KeptAllPending(d: Places, source: Json, S: Store, S': Store, H: set<Pointer>, K: set<Pointer>)
    requires Kept(S, S', H) && AllPending(d, source, S, K) && H !! K
    ensures AllPending(d, source, S', K)
  {
    forall h | h in K
      ensures Pending(source, S', h, h in d.lists)
    {
      KeptPending(source, S, S', H, h, h in d.lists);
    }
  }

  lemma KeptAllDone(d: Places, S: Store, S': Store, H: set<Pointer>, K: set<Pointer>)
    requires Kept(S, S', H) && AllDone(d, S, K) && H !! K
    ensures AllDone(d, S', K)
  {
    forall h | h in K
      ensures Done(d.dst, S', h, h in d.lists)
    {
      KeptDone(d.dst, S, S', H, h, h in d.lists);
    }
  }

  /** The holes of several children. */
  ghost function ChildrenHoles(p: Pointer, src: Json, dst: Json, names: seq<string>): set<Pointer>
    requires src.Obj? && dst.Obj? && forall n :: n in names ==> Common(src, dst, n)
  {
    if names == [] then {} else ChildHoles(p, src, dst, names[0]) + ChildrenHoles(p, src, dst, names[1..])
  }

  lemma {:induction false} ChildrenHolesIn(p: Pointer, src: Json, dst: Json, names: seq<string>, h: Pointer)
    requires src.Obj? && dst.Obj? && forall n :: n in names ==> Common(src, dst, n)
    ensures h in ChildrenHoles(p, src, dst, names) <==> exists n :: n in names && h in ChildHoles(p, src, dst, n)
  {
    if names != [] {
      ChildrenHolesIn(p, src, dst, names[1..], h);
      forall n | n in names
        ensures n == names[0] || n in names[1..]
      {
      }
    }
  }

  lemma ChildrenApart(p: Pointer, src: Json, dst: Json, names: seq<string>, n: string)
    requires src.Obj? && dst.Obj? && forall n' :: n' in names ==> Common(src, dst, n')
    requires Common(src, dst, n) && n !in names
    ensures ChildHoles(p, src, dst, n) !! ChildrenHoles(p, src, dst, names)
  {
    forall h | h in ChildHoles(p, src, dst, n)
      ensures h !in ChildrenHoles(p, src, dst, names)
    {
      ChildrenHolesIn(p, src, dst, names, h);
      forall n' | n' in names
        ensures h !in ChildHoles(p, src, dst, n')
      {
        ChildHolesApart(p, src, dst, n, n');
      }
    }
  }

  lemma {:induction false} MembersRun(order: Order, d: Places, source: Json, S0: Store, acts: seq<Action>, S: Store,
                                      p: Pointer, names: seq<string>, src: Json, dst: Json)
    returns (acts': seq<Action>, S': Store)
    requires Complete(order) && Separate(d) && AllLegal(d, acts) && Run(S0, acts) == Some(S)
    requires Within(d, source, p, src, dst) && src.Obj? && dst.Obj?
    requires Distinct(names) && forall n :: n in names ==> Common(src, dst, n)
    requires AllPending(d, source, S, ChildrenHoles(p, src, dst, names))
    requires MembersTimely(order, d, EncAll(acts), p, names, src, dst)
    ensures CompareMembers(order, d.dst, EncAll(acts), p, names, src, dst) == Ok(EncAll(acts'))
    ensures AllLegal(d, acts') && Run(S0, acts') == Some(S')
    ensures Kept(S, S', ChildrenHoles(p, src, dst, names)) && AllDone(d, S', ChildrenHoles(p, src, dst, names))
    decreases src, 1, |names|
  {
    if names == [] {
      acts', S' := acts, S;
      KeptRefl(S, {});
    } else {
      var n := names[0];
      WithinChild(d, source, p, src, dst, n);
      var H, K := ChildHoles(p, src, dst, n), ChildrenHoles(p, src, dst, names[1..]);
      ChildrenApart(p, src, dst, names[1..], n);
      var acts1, S1 := ValuesRun(order, d, source, S0, acts, S, p + [n], src.members[n], dst.members[n]);
      KeptAllPending(d, source, S, S1, H, K);
      acts', S' := MembersRun(order, d, source, S0, acts1, S1, p, names[1..], src, dst);
      KeptAllDone(d, S1, S', K, H);
      KeptTrans(S, S1, S', H, K);
    }
  }

  lemma InChildren(p: Pointer, src: Json, dst: Json, both: seq<string>, h: Pointer)
    requires src.Obj? && dst.Obj? && (forall n :: n in both ==> Common(src, dst, n))
             && h in ChildrenHoles(p, src, dst, both)
    ensures h in AllHoles(p, src, dst) && |h| > |p| && h[|p|] in both
  {
    ChildrenHolesIn(p, src, dst, both, h);
    var n :| n in both && h in ChildHoles(p, src, dst, n);
    ChildHolesWithin(p, src, dst, n);
    HolesBelow(p + [n], src.members[n], dst.members[n], h);
    assert h[|p|] == (p + [n])[|p|] == n;
  }

  lemma MemberNamed(p: Pointer, names: seq<string>, h: Pointer)
    requires h in MemberPlaces(p, names)
    ensures |h| > |p| && h[|p|] in names
  {
    var n :| n in names && h == p + [n];
    assert h[|p|] == n;
  }

  /** Every hole of an object is a lost member, a gained member, or in a child. */
  lemma ObjectHoles(p: Pointer, src: Json, dst: Json, gone: seq<string>, come: seq<string>, both: seq<string>)
    requires src.Obj? && dst.Obj?
    requires Lists(gone, src.members.Keys - dst.members.Keys)
    requires Lists(come, dst.members.Keys - src.members.Keys)
    requires Lists(both, src.members.Keys * dst.members.Keys)
    ensures AllHoles(p, src, dst) ==
            MemberPlaces(p, gone) + MemberPlaces(p, come) + ChildrenHoles(p, src, dst, both)
    ensures MemberPlaces(p, gone) <= MemberHoles(p, src, dst) && MemberPlaces(p, come) <= MemberHoles(p, src, dst)
    ensures MemberPlaces(p, gone) !! MemberPlaces(p, come)
    ensures (MemberPlaces(p, gone) + MemberPlaces(p, come)) !! ChildrenHoles(p, src, dst, both)
  {
    forall h | h in AllHoles(p, src, dst)
      ensures h in MemberPlaces(p, gone) + MemberPlaces(p, come) + ChildrenHoles(p, src, dst, both)
    {
      HoleCases(p, src, dst, h);
      ChildrenHolesIn(p, src, dst, both, h);
    }
    forall h | h in ChildrenHoles(p, src, dst, both)
      ensures h in AllHoles(p, src, dst) && h !in MemberPlaces(p, gone) + MemberPlaces(p, come)
    {
      InChildren(p, src, dst, both, h);
      if h in MemberPlaces(p, gone) { MemberNamed(p, gone, h); }
      if h in MemberPlaces(p, come) { MemberNamed(p, come, h); }
    }
    forall n, n' | n in gone && n' in come ensures p + [n] != p + [n'] {
      assert (p + [n])[|p|] == n && (p + [n'])[|p|] == n';
    }
  }

  lemma LostMembers(d: Places, source: Json, S: Store, p: Pointer, src: Json, dst: Json, gone: seq<string>)
    requires Within(d, source, p, src, dst) && src.Obj? && dst.Obj?
    requires forall n :: n in gone ==> n in src.members && n !in dst.members
    ensures MemberPlaces(p, gone) <= d.members
    ensures forall n :: n in gone && PyInt(n).Some? ==> src.members[n] in d.keyed
    ensures AllPending(d, source, S, MemberPlaces(p, gone)) ==>
              forall n :: n in gone ==> p + [n] in S && S[p + [n]] == One(Cell(src.members[n], false))
    ensures (forall n :: n in gone ==> p + [n] in S && S[p + [n]].Gone?) ==> AllDone(d, S, MemberPlaces(p, gone))
  {
    forall n | n in gone
      ensures p + [n] in MemberHoles(p, src, dst)
      ensures Resolve(source, p + [n]) == Ok(src.members[n]) && Resolve(d.dst, p + [n]).Raised?
    {
      ResolveMember(source, p, src, n);
      ResolveMember(d.dst, p, dst, n);
    }
    if AllPending(d, source, S, MemberPlaces(p, gone)) {
      forall n | n in gone
        ensures p + [n] in S && S[p + [n]] == One(Cell(src.members[n], false))
      {
        assert p + [n] in MemberPlaces(p, gone);
      }
    }
  }

  lemma GainedMembers(d: Places, source: Json, S: Store, p: Pointer, src: Json, dst: Json, come: seq<string>)
    requires Within(d, source, p, src, dst) && src.Obj? && dst.Obj?
    requires forall n :: n in come ==> n in dst.members && n !in src.members
    ensures MemberPlaces(p, come) <= d.members
    ensures AllPending(d, source, S, MemberPlaces(p, come)) ==> forall n :: n in come ==> p + [n] !in S
    ensures (forall n :: n in come ==> p + [n] in S && S[p + [n]].One? && S[p + [n]].cell.v == dst.members[n]) ==>
              AllDone(d, S, MemberPlaces(p, come))
  {
    forall n | n in come
      ensures p + [n] in MemberHoles(p, src, dst) && dst.members[n] in MembersGained(src, dst)
      ensures Resolve(source, p + [n]).Raised? && Resolve(d.dst, p + [n]) == Ok(dst.members[n])
    {
      ResolveMember(source, p, src, n);
      ResolveMember(d.dst, p, dst, n);
    }
    if AllPending(d, source, S, MemberPlaces(p, come)) {
      forall n | n in come
        ensures p + [n] !in S
      {
        assert p + [n] in MemberPlaces(p, come);
      }
    }
  }

  lemma DictsRun(order: Order, d: Places, source: Json, S0: Store, acts: seq<Action>, S: Store, p: Pointer, src: Json,
                 dst: Json)
    returns (acts': seq<Action>, S': Store)
    requires Complete(order) && Separate(d) && AllLegal(d, acts) && Run(S0, acts) == Some(S)
    requires Within(d, source, p, src, dst) && src.Obj? && dst.Obj?
    requires AllPending(d, source, S, AllHoles(p, src, dst)) && DictsTimely(order, d, EncAll(acts), p, src, dst)
    ensures CompareDicts(order, d.dst, EncAll(acts), p, src, dst) == Ok(EncAll(acts'))
    ensures AllLegal(d, acts') && Run(S0, acts') == Some(S')
    ensures Kept(S, S', AllHoles(p, src, dst)) && AllDone(d, S', AllHoles(p, src, dst))
    decreases src, 2, 0
  {
    var gone := order(p, src.members.Keys - dst.members.Keys);
    var come := order(p, dst.members.Keys - src.members.Keys);
    var both := order(p, src.members.Keys * dst.members.Keys);
    ObjectHoles(p, src, dst, gone, come, both);
    var G, C, B := MemberPlaces(p, gone), MemberPlaces(p, come), ChildrenHoles(p, src, dst, both);
    var acts1, acts2, S2 := OwnMembersRun(d, source, S0, acts, S, p, src, dst, gone, come, B);
    acts', S' := MembersRun(order, d, source, S0, acts2, S2, p, both, src, dst);
    KeptAllDone(d, S2, S', B, G + C);
    KeptTrans(S, S2, S', G + C, B);
  }

  /** The members that an object loses, and then those that it gains; the places in B are still to come. */
  lemma OwnMembersRun(d: Places, source: Json, S0: Store, acts: seq<Action>, S: Store, p: Pointer, src: Json, dst: Json,
                      gone: seq<string>, come: seq<string>, B: set<Pointer>)
    returns (acts1: seq<Action>, acts2: seq<Action>, S2: Store)
    requires Separate(d) && AllLegal(d, acts) && Run(S0, acts) == Some(S)
    requires Within(d, source, p, src, dst) && src.Obj? && dst.Obj? && Distinct(gone) && Distinct(come)
    requires forall n :: n in gone ==> n in src.members && n !in dst.members
    requires forall n :: n in come ==> n in dst.members && n !in src.members
    requires var (G, C) := (MemberPlaces(p, gone), MemberPlaces(p, come));
             AllPending(d, source, S, G + C + B) && G !! C && (G + C) !! B
    requires var removed := RemoveMembers(EncAll(acts), p, gone, src.members, d.dst);
             removed.Ok? ==> AddsTimely(d, removed.value, p, come, dst.members)
    ensures RemoveMembers(EncAll(acts), p, gone, src.members, d.dst) == Ok(EncAll(acts1))
    ensures AddMembers(EncAll(acts1), p, come, dst.members) == Ok(EncAll(acts2))
    ensures AllLegal(d, acts2) && Run(S0, acts2) == Some(S2)
    ensures var H := MemberPlaces(p, gone) + MemberPlaces(p, come);
            Kept(S, S2, H) && AllDone(d, S2, H) && AllPending(d, source, S2, B)
  {
    var G, C := MemberPlaces(p, gone), MemberPlaces(p, come);
    LostMembers(d, source, S, p, src, dst, gone);
    var S1;
    acts1, S1 := RemoveMembersRun(d, S0, acts, S, p, gone, src.members);
    LostMembers(d, source, S1, p, src, dst, gone);
    KeptAllPending(d, source, S, S1, G, C + B);
    GainedMembers(d, source, S1, p, src, dst, come);
    acts2, S2 := AddMembersRun(d, S0, acts1, S1, p, come, dst.members);
    GainedMembers(d, source, S2, p, src, dst, come);
    KeptAllPending(d, source, S1, S2, C, B);
    KeptAllDone(d, S1, S2, C, G);
    KeptTrans(S, S1, S2, G, C);
  }

  lemma ValuesRun(order: Order, d: Places, source: Json, S0: Store, acts: seq<Action>, S: Store, p: Pointer, src: Json,
                  dst: Json)
    returns (acts': seq<Action>, S': Store)
    requires Complete(order) && Separate(d) && AllLegal(d, acts) && Run(S0, acts) == Some(S)
    requires Within(d, source, p, src, dst)
    requires AllPending(d, source, S, AllHoles(p, src, dst)) && ValuesTimely(order, d, EncAll(acts), p, src, dst)
    ensures CompareValues(order, d.dst, EncAll(acts), p, src, dst) == Ok(EncAll(acts'))
    ensures AllLegal(d, acts') && Run(S0, acts') == Some(S')
    ensures Kept(S, S', AllHoles(p, src, dst)) && AllDone(d, S', AllHoles(p, src, dst))
    decreases src, 3, 0
  {
    if src.Obj? && dst.Obj? {
      acts', S' := DictsRun(order, d, source, S0, acts, S, p, src, dst);
    } else if src.Arr? && dst.Arr? {
      acts', S' := TwoListsRun(order, d, source, S0, acts, S, p, src, dst);
    } else {
      acts', S' := TwoValuesRun(order, d, source, S0, acts, S, p, src, dst);
    }
  }

  lemma TwoListsRun(order: Order, d: Places, source: Json, S0: Store, acts: seq<Action>, S: Store, p: Pointer,
                    src: Json, dst: Json)
    returns (acts': seq<Action>, S': Store)
    requires Complete(order) && Separate(d) && AllLegal(d, acts) && Run(S0, acts) == Some(S)
    requires Within(d, source, p, src, dst) && src.Arr? && dst.Arr?
    requires Pending(source, S, p, true) && ListsTimely(order, d, EncAll(acts), p, 0, src, dst)
    ensures CompareValues(order, d.dst, EncAll(acts), p, src, dst) == Ok(EncAll(acts'))
    ensures AllLegal(d, acts') && Run(S0, acts') == Some(S') && Kept(S, S', {p}) && Done(d.dst, S', p, true)
  {
    ListPending(source, S, p, src, dst.items);
    acts', S' := ListsRun(order, d, S0, acts, S, p, 0, src, dst);
  }

  lemma ListPending(source: Json, S: Store, p: Pointer, src: Json, dst: seq<Json>)
    requires Resolve(source, p) == Ok(src) && src.Arr? && Pending(source, S, p, true)
    ensures p in S && ListAt(S[p], 0, src.items, dst)
  {
    assert dst[..0] + src.items[0..] == src.items;
    assert Vals(S[p].cells) == src.items;
  }

  lemma TwoValuesRun(order: Order, d: Places, source: Json, S0: Store, acts: seq<Action>, S: Store, p: Pointer,
                     src: Json, dst: Json)
    returns (acts': seq<Action>, S': Store)
    requires Complete(order) && Separate(d) && AllLegal(d, acts) && Run(S0, acts) == Some(S)
    requires Within(d, source, p, src, dst) && !(src.Obj? && dst.Obj?) && !(src.Arr? && dst.Arr?)
    requires Pending(source, S, p, false)
    ensures CompareValues(order, d.dst, EncAll(acts), p, src, dst) == Ok(EncAll(acts'))
    ensures AllLegal(d, acts') && Run(S0, acts') == Some(S') && Kept(S, S', {p}) && Done(d.dst, S', p, false)
  {
    if src == dst {
      acts', S' := acts, S;
      KeptRefl(S, {p});
    } else {
      acts', S' := acts + [Rep(p, dst)], Write(S, p, dst).value;
      Appended(d, S0, acts, S, Rep(p, dst));
      KeptRefl(S, {p});
    }
  }
}
