/**
 What the diff records, as a function of the documents: the specification of the builder.
 Sets of member names are visited in an order the language does not fix, so the order is a parameter.
 */
module Diffs {
  import opened Collections
  import opened Outcomes
  import opened Text
  import opened Pointers
  import opened Documents
  import opened Patches
  import opened Rewriting

  /** The order in which the names of a set are visited at a given place. */
  type Order = (Pointer, set<string>) -> seq<string>

  ghost predicate Complete(order: Order) {
    forall p, names :: Lists(order(p, names), names)
  }

  /** The sequence lists the set, each member once. */
  predicate Lists(s: seq<string>, names: set<string>) {
    Distinct(s) && (forall n :: n in s ==> n in names) && (forall n :: n in names ==> n in s)
  }

  // ----- the index stores: the latest recorded operation of a kind for a value ------------

  predicate Matches(e: Entry, kind: Kind, item: Json) {
    e.item == item && (if kind == Adding then e.op.Add? else e.op.Remove?)
  }

  /** take_index: the last recorded operation of that kind for that value. */
  function LastMatch(es: seq<Entry>, kind: Kind, item: Json): (r: Option<nat>)
    ensures r.None? ==> forall i :: 0 <= i < |es| ==> !Matches(es[i], kind, item)
    ensures r.Some? ==> r.value < |es| && Matches(es[r.value], kind, item)
    ensures r.Some? ==> forall i :: r.value < i < |es| ==> !Matches(es[i], kind, item)
  {
    if es == [] then None
    else if Matches(es[|es| - 1], kind, item) then Some(|es| - 1)
    else LastMatch(es[..|es| - 1], kind, item)
  }

  // ----- recording --------------------------------------------------------------------------

  /**
   _item_added. An earlier removal of an equal value is taken out of the list, the operations after it
   are renumbered, and a move takes its place at the end, unless it would move to where it starts.
   */
  function Added(es: seq<Entry>, ptr: Pointer, isPosition: bool, item: Json): Outcome<seq<Entry>> {
    match LastMatch(es, Removing, item)
    case None => Ok(es + [Entry(Add(ptr, item), item)])
    case Some(i) => AddedFor(es, i, ptr, isPosition, item)
  }

  /** The removal at i turns out to be the start of a move. */
  function AddedFor(es: seq<Entry>, i: nat, ptr: Pointer, isPosition: bool, item: Json): Outcome<seq<Entry>>
    requires i < |es|
  {
    var taken := es[i].op.ptr;
    if taken == [] then Raised(PythonTypeError)
    else if isPosition && PyInt(Last(taken)).Some? then
      var (later, key) :- UndoAll(Removing, es[i + 1..], ParentPath(taken), PyInt(Last(taken)).value);
      Ok(es[..i] + later + MoveUnlessSame(Rekeyed(taken, es[i + 1..], key), ptr, item))
    else
      Ok(es[..i] + es[i + 1..] + MoveUnlessSame(taken, ptr, item))
  }

  /** The setter runs once for every later operation, so a pointer with none after it keeps its text. */
  function Rekeyed(ptr: Pointer, later: seq<Entry>, key: int): Pointer
    requires ptr != []
  {
    if later == [] then ptr else WithKey(ptr, key)
  }

  function MoveUnlessSame(source: Pointer, ptr: Pointer, item: Json): seq<Entry> {
    if source == ptr then [] else [Entry(Move(source, ptr), item)]
  }

  /**
   _item_removed. An earlier addition of an equal value is taken out of the list. If it went into a list,
   the operations after it are renumbered, the new removal among them.
   */
  function Removed(es: seq<Entry>, ptr: Pointer, item: Json, dst: Json): Outcome<seq<Entry>> {
    match LastMatch(es, Adding, item)
    case None => Ok(es + [Entry(Remove(ptr), item)])
    case Some(i) => RemovedFor(es, i, ptr, item, dst)
  }

  /** The addition at i turns out to be the end of a move. */
  function RemovedFor(es: seq<Entry>, i: nat, ptr: Pointer, item: Json, dst: Json): Outcome<seq<Entry>>
    requires i < |es|
  {
    var taken := es[i].op.ptr;
    if taken == [] then
      if dst.Arr? then Raised(PythonTypeError)
      else Ok(es[..i] + es[i + 1..] + MoveUnlessSame(ptr, taken, item))
    else
      var (container, _) :- ToLast(dst, taken);
      if container.Arr? then
        var start :- IntKey(taken);
        var removal := Entry(Remove(ptr), item);
        var (later, key) :- UndoAll(Adding, es[i + 1..] + [removal], ParentPath(taken), start);
        var last := |later| - 1;
        Ok(es[..i] + later[..last] + MoveUnlessSame(later[last].op.ptr, WithKey(taken, key), item))
      else
        Ok(es[..i] + es[i + 1..] + MoveUnlessSame(ptr, taken, item))
  }

  /** The result of a removal that takes an addition into a list out of the list of operations. */
  lemma RemovedForElem(es: seq<Entry>, i: nat, ptr: Pointer, item: Json, dst: Json, later: seq<Entry>, start: int,
                       key: int)
    requires i < |es| && es[i].op.ptr != [] && ToLast(dst, es[i].op.ptr).Ok? && ToLast(dst, es[i].op.ptr).value.0.Arr?
    requires IntKey(es[i].op.ptr) == Ok(start)
    requires UndoAll(Adding, es[i + 1..] + [Entry(Remove(ptr), item)], ParentPath(es[i].op.ptr), start) ==
               Ok((later, key))
    ensures |later| > 0
    ensures RemovedFor(es, i, ptr, item, dst)
            == Ok(es[..i] + later[..|later| - 1]
                  + MoveUnlessSame(later[|later| - 1].op.ptr, WithKey(es[i].op.ptr, key), item))
  {
  }

  /** _item_replaced. */
  function Replaced(es: seq<Entry>, ptr: Pointer, item: Json): seq<Entry> {
    es + [Entry(Replace(ptr, item), item)]
  }

  // ----- comparing ----------------------------------------------------------------------------

  function RemoveMembers(es: seq<Entry>, ptr: Pointer, names: seq<string>, src: map<string, Json>, dst: Json)
    : Outcome<seq<Entry>>
    requires forall n :: n in names ==> n in src
    decreases |names|
  {
    if names == [] then Ok(es)
    else
      var next :- Removed(es, ptr + [names[0]], src[names[0]], dst);
      RemoveMembers(next, ptr, names[1..], src, dst)
  }

  function AddMembers(es: seq<Entry>, ptr: Pointer, names: seq<string>, dst: map<string, Json>)
    : Outcome<seq<Entry>>
    requires forall n :: n in names ==> n in dst
    decreases |names|
  {
    if names == [] then Ok(es)
    else
      var next :- Added(es, ptr + [names[0]], false, dst[names[0]]);
      AddMembers(next, ptr, names[1..], dst)
  }

  /** _compare_dicts. */
  ghost function CompareDicts(order: Order, root: Json, es: seq<Entry>, ptr: Pointer, src: Json, dst: Json)
    : Outcome<seq<Entry>>
    requires Complete(order) && src.Obj? && dst.Obj?
    decreases src, 2, 0
  {
    var gone := src.members.Keys - dst.members.Keys;
    var come := dst.members.Keys - src.members.Keys;
    var removed :- RemoveMembers(es, ptr, order(ptr, gone), src.members, root);
    var added :- AddMembers(removed, ptr, order(ptr, come), dst.members);
    var both := src.members.Keys * dst.members.Keys;
    CompareMembers(order, root, added, ptr, order(ptr, both), src, dst)
  }

  ghost function CompareMembers(order: Order, root: Json, es: seq<Entry>, ptr: Pointer, names: seq<string>, src: Json,
                                dst: Json)
    : Outcome<seq<Entry>>
    requires Complete(order) && src.Obj? && dst.Obj?
    requires forall n :: n in names ==> n in src.members && n in dst.members
    decreases src, 1, |names|
  {
    if names == [] then Ok(es)
    else
      var n := names[0];
      var next :- CompareValues(order, root, es, ptr + [n], src.members[n], dst.members[n]);
      CompareMembers(order, root, next, ptr, names[1..], src, dst)
  }

  function Max(a: nat, b: nat): nat {
    if a < b then b else a
  }

  /** _compare_lists, from position key on. */
  ghost function CompareLists(order: Order, root: Json, es: seq<Entry>, ptr: Pointer, key: nat, src: Json, dst: Json)
    : Outcome<seq<Entry>>
    requires Complete(order) && src.Arr? && dst.Arr?
    decreases src, 1, Max(|src.items|, |dst.items|) - key
  {
    if key >= Max(|src.items|, |dst.items|) then Ok(es)
    else
      var next :- CompareElement(order, root, es, ptr, key, src, dst);
      CompareLists(order, root, next, ptr, key + 1, src, dst)
  }

  /** An element of a list gives way to another. */
  function Exchanged(es: seq<Entry>, here: Pointer, was: Json, now: Json, root: Json): Outcome<seq<Entry>> {
    var without :- Removed(es, here, was, root);
    Added(without, here, true, now)
  }

  /** The body of the loop of _compare_lists. */
  ghost function CompareElement(order: Order, root: Json, es: seq<Entry>, ptr: Pointer, key: nat, src: Json, dst: Json)
    : Outcome<seq<Entry>>
    requires Complete(order) && src.Arr? && dst.Arr?
    requires key < Max(|src.items|, |dst.items|)
    decreases src, 0, 0
  {
    var here := ptr + [Dec(key)];
    if key < |src.items| && key < |dst.items| then
      var was := src.items[key];
      var now := dst.items[key];
      if was == now then Ok(es)
      else if was.Obj? && now.Obj? then CompareDicts(order, root, es, here, was, now)
      else if was.Arr? && now.Arr? then CompareLists(order, root, es, here, 0, was, now)
      else Exchanged(es, here, was, now, root)
    else if |src.items| > |dst.items| then
      Removed(es, ptr + [Dec(|dst.items|)], src.items[key], root)
    else
      Added(es, here, true, dst.items[key])
  }

  /** _compare_values. */
  ghost function CompareValues(order: Order, root: Json, es: seq<Entry>, ptr: Pointer, src: Json, dst: Json)
    : Outcome<seq<Entry>>
    requires Complete(order)
    decreases src, 3, 0
  {
    if src.Obj? && dst.Obj? then CompareDicts(order, root, es, ptr, src, dst)
    else if src.Arr? && dst.Arr? then CompareLists(order, root, es, ptr, 0, src, dst)
    else if src == dst then Ok(es)
    else Ok(Replaced(es, ptr, dst))
  }

  function Ops(es: seq<Entry>): (ops: seq<Op>)
    ensures |ops| == |es|
    ensures forall i :: 0 <= i < |es| ==> ops[i] == es[i].op
  {
    if es == [] then [] else [es[0].op] + Ops(es[1..])
  }

  /** from_diff: the recorded operations, fused. */
  ghost function FromDiff(order: Order, src: Json, dst: Json): Outcome<seq<Op>>
    requires Complete(order)
  {
    var es :- CompareValues(order, dst, [], [], src, dst);
    Ok(Fuse(Ops(es)))
  }

  // ----- equal parts --------------------------------------------------------------------------

  /** Where two documents are equal nothing is recorded, so the diff of equal documents is empty. */
  lemma {:induction false} EqualNothing(order: Order, root: Json, es: seq<Entry>, ptr: Pointer, doc: Json)
    requires Complete(order)
    ensures CompareValues(order, root, es, ptr, doc, doc) == Ok(es)
    ensures FromDiff(order, doc, doc) == Ok([])
    decreases doc, 2, 0
  {
    EqualParts(order, root, es, ptr, doc);
    EqualParts(order, doc, [], [], doc);
  }

  lemma {:induction false} EqualParts(order: Order, root: Json, es: seq<Entry>, ptr: Pointer, doc: Json)
    requires Complete(order)
    ensures CompareValues(order, root, es, ptr, doc, doc) == Ok(es)
    decreases doc, 1, 0
  {
    if doc.Obj? {
      var names := doc.members.Keys;
      assert names - names == {} && names * names == names;
      assert Lists(order(ptr, {}), {}) && Lists(order(ptr, names), names);
      if order(ptr, {}) != [] { ListsSome(order(ptr, {})); }
      EqualMembers(order, root, es, ptr, order(ptr, names), doc);
    } else if doc.Arr? {
      EqualElements(order, root, es, ptr, 0, doc);
    }
  }

  lemma ListsSome(s: seq<string>)
    requires s != []
    ensures !Lists(s, {})
  {
    assert s[0] in s;
  }

  lemma {:induction false} EqualMembers(order: Order, root: Json, es: seq<Entry>, ptr: Pointer, names: seq<string>,
                                        doc: Json)
    requires Complete(order) && doc.Obj? && forall n :: n in names ==> n in doc.members
    ensures CompareMembers(order, root, es, ptr, names, doc, doc) == Ok(es)
    decreases doc, 0, |names|
  {
    if names != [] {
      EqualParts(order, root, es, ptr + [names[0]], doc.members[names[0]]);
      EqualMembers(order, root, es, ptr, names[1..], doc);
    }
  }

  lemma {:induction false} EqualElements(order: Order, root: Json, es: seq<Entry>, ptr: Pointer, key: nat, doc: Json)
    requires Complete(order) && doc.Arr?
    ensures CompareLists(order, root, es, ptr, key, doc, doc) == Ok(es)
    decreases |doc.items| - key
  {
    if key < |doc.items| { EqualElements(order, root, es, ptr, key + 1, doc); }
  }
}
