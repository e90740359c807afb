/**
 The recorded list never holds both a removal and an addition of equal values: every such pair has become a
 move, for any two documents.
 */
module Pairing {
  import opened Text
  import opened Pointers
  import opened Documents
  import opened Patches
  import opened Rewriting
  import opened Diffs

  ghost predicate Unpaired(es: seq<Entry>) {
    forall i, j :: 0 <= i < |es| && 0 <= j < |es| && es[i].op.Add? && es[j].op.Remove? ==> es[i].item != es[j].item
  }

  /** Renumbering keeps what kind of operation each one is. */
  lemma {:induction false} UndoAllKinds(kind: Kind, later: seq<Entry>, path: string, key: int)
    requires UndoAll(kind, later, path, key).Ok?
    ensures var r := UndoAll(kind, later, path, key).value.0;
            forall i :: 0 <= i < |later| ==>
              (r[i].op.Add? <==> later[i].op.Add?) && (r[i].op.Remove? <==> later[i].op.Remove?)
    decreases |later|
  {
    if later != [] {
      var (op, key') := Undo(kind, later[0].op, path, key).value;
      UndoAllKinds(kind, later[1..], path, key');
      UndoKind(kind, later[0].op, path, key);
      assert UndoAll(kind, later, path, key).value.0[1..] == UndoAll(kind, later[1..], path, key').value.0;
    }
  }

  lemma UndoKind(kind: Kind, op: Op, path: string, key: int)
    requires Undo(kind, op, path, key).Ok?
    ensures var op' := Undo(kind, op, path, key).value.0; (op'.Add? <==> op.Add?) && (op'.Remove? <==> op.Remove?)
  {
  }

  /** Entries of the same kinds and items, in front of nothing or of one move. */
  lemma UnpairedRest(es: seq<Entry>, i: nat, later: seq<Entry>, tail: seq<Entry>)
    requires Unpaired(es) && i < |es| && |later| == |es| - i - 1
    requires forall k :: 0 <= k < |later| ==>
               && later[k].item == es[i + 1 + k].item
               && (later[k].op.Add? <==> es[i + 1 + k].op.Add?) && (later[k].op.Remove? <==> es[i + 1 + k].op.Remove?)
    requires forall k :: 0 <= k < |tail| ==> tail[k].op.Move?
    ensures Unpaired(es[..i] + later + tail)
  {
    var r := es[..i] + later + tail;
    forall a, b | 0 <= a < |r| && 0 <= b < |r| && r[a].op.Add? && r[b].op.Remove?
      ensures r[a].item != r[b].item
    {
      var a' := if a < i then a else a + 1;
      var b' := if b < i then b else b + 1;
      assert es[a'].op.Add? && es[a'].item == r[a].item;
      assert es[b'].op.Remove? && es[b'].item == r[b].item;
    }
  }

  /** One more entry, with nothing of the other kind for its value. */
  lemma UnpairedMore(es: seq<Entry>, e: Entry)
    requires Unpaired(es) && LastMatch(es, if e.op.Add? then Removing else Adding, e.item).None?
    requires e.op.Add? || e.op.Remove?
    ensures Unpaired(es + [e])
  {
    var kind := if e.op.Add? then Removing else Adding;
    var r := es + [e];
    forall a, b | 0 <= a < |r| && 0 <= b < |r| && r[a].op.Add? && r[b].op.Remove?
      ensures r[a].item != r[b].item
    {
      assert b < |es| ==> !Matches(es[b], Removing, e.item) || kind == Adding;
      assert a < |es| ==> !Matches(es[a], Adding, e.item) || kind == Removing;
    }
  }

  lemma AddedForUnpaired(es: seq<Entry>, i: nat, ptr: Pointer, isPosition: bool, item: Json)
    requires i < |es| && Unpaired(es) && AddedFor(es, i, ptr, isPosition, item).Ok?
    ensures Unpaired(AddedFor(es, i, ptr, isPosition, item).value)
  {
    var taken := es[i].op.ptr;
    var at := PyInt(Last(taken));
    var after := es[i + 1..];
    if isPosition && at.Some? {
      UndoAllKinds(Removing, after, ParentPath(taken), at.value);
      var (later, key) := UndoAll(Removing, after, ParentPath(taken), at.value).value;
      UnpairedRest(es, i, later, MoveUnlessSame(Rekeyed(taken, after, key), ptr, item));
    } else {
      UnpairedRest(es, i, after, MoveUnlessSame(taken, ptr, item));
    }
  }

  lemma AddedUnpaired(es: seq<Entry>, ptr: Pointer, isPosition: bool, item: Json)
    requires Unpaired(es) && Added(es, ptr, isPosition, item).Ok?
    ensures Unpaired(Added(es, ptr, isPosition, item).value)
  {
    match LastMatch(es, Removing, item) {
      case None => UnpairedMore(es, Entry(Add(ptr, item), item));
      case Some(i) => AddedForUnpaired(es, i, ptr, isPosition, item);
    }
  }

  lemma RenumberedUnpaired(es: seq<Entry>, i: nat, ptr: Pointer, item: Json)
    requires i < |es| && Unpaired(es) && es[i].op.ptr != [] && IntKey(es[i].op.ptr).Ok?
    requires var taken := es[i].op.ptr;
             UndoAll(Adding, es[i + 1..] + [Entry(Remove(ptr), item)], ParentPath(taken), IntKey(taken).value).Ok?
    ensures var taken := es[i].op.ptr;
            var (later, key) := UndoAll(Adding, es[i + 1..] + [Entry(Remove(ptr), item)], ParentPath(taken),
                                        IntKey(taken).value).value;
            Unpaired(es[..i] + later[..|later| - 1]
                     + MoveUnlessSame(later[|later| - 1].op.ptr, WithKey(taken, key), item))
  {
    var taken := es[i].op.ptr;
    var all := es[i + 1..] + [Entry(Remove(ptr), item)];
    UndoAllKinds(Adding, all, ParentPath(taken), IntKey(taken).value);
    var (later, key) := UndoAll(Adding, all, ParentPath(taken), IntKey(taken).value).value;
    var last := |later| - 1;
    assert forall k :: 0 <= k < last ==> all[k] == es[i + 1 + k];
    UnpairedRest(es, i, later[..last], MoveUnlessSame(later[last].op.ptr, WithKey(taken, key), item));
  }

  lemma RemovedForUnpaired(es: seq<Entry>, i: nat, ptr: Pointer, item: Json, dst: Json)
    requires i < |es| && Unpaired(es) && RemovedFor(es, i, ptr, item, dst).Ok?
    ensures Unpaired(RemovedFor(es, i, ptr, item, dst).value)
  {
    var taken := es[i].op.ptr;
    if taken != [] && ToLast(dst, taken).value.0.Arr? {
      RenumberedUnpaired(es, i, ptr, item);
      var (later, key) :=
        UndoAll(Adding, es[i + 1..] + [Entry(Remove(ptr), item)], ParentPath(taken), IntKey(taken).value).value;
      RemovedForElem(es, i, ptr, item, dst, later, IntKey(taken).value, key);
    } else {
      UnpairedRest(es, i, es[i + 1..], MoveUnlessSame(ptr, taken, item));
    }
  }

  lemma RemovedUnpaired(es: seq<Entry>, ptr: Pointer, item: Json, dst: Json)
    requires Unpaired(es) && Removed(es, ptr, item, dst).Ok?
    ensures Unpaired(Removed(es, ptr, item, dst).value)
  {
    match LastMatch(es, Adding, item) {
      case None => UnpairedMore(es, Entry(Remove(ptr), item));
      case Some(i) => RemovedForUnpaired(es, i, ptr, item, dst);
    }
  }

  lemma {:induction false} RemoveMembersUnpaired(es: seq<Entry>, ptr: Pointer, names: seq<string>,
                                                 src: map<string, Json>, dst: Json)
    requires forall n :: n in names ==> n in src
    requires Unpaired(es) && RemoveMembers(es, ptr, names, src, dst).Ok?
    ensures Unpaired(RemoveMembers(es, ptr, names, src, dst).value)
    decreases |names|
  {
    if names != [] {
      RemovedUnpaired(es, ptr + [names[0]], src[names[0]], dst);
      RemoveMembersUnpaired(Removed(es, ptr + [names[0]], src[names[0]], dst).value, ptr, names[1..], src, dst);
    }
  }

  lemma {:induction false} AddMembersUnpaired(es: seq<Entry>, ptr: Pointer, names: seq<string>, dst: map<string, Json>)
    requires forall n :: n in names ==> n in dst
    requires Unpaired(es) && AddMembers(es, ptr, names, dst).Ok?
    ensures Unpaired(AddMembers(es, ptr, names, dst).value)
    decreases |names|
  {
    if names != [] {
      AddedUnpaired(es, ptr + [names[0]], false, dst[names[0]]);
      AddMembersUnpaired(Added(es, ptr + [names[0]], false, dst[names[0]]).value, ptr, names[1..], dst);
    }
  }

  lemma DictsUnpaired(order: Order, root: Json, es: seq<Entry>, ptr: Pointer, src: Json, dst: Json)
    requires Complete(order) && src.Obj? && dst.Obj?
    requires Unpaired(es) && CompareDicts(order, root, es, ptr, src, dst).Ok?
    ensures Unpaired(CompareDicts(order, root, es, ptr, src, dst).value)
    decreases src, 2, 0
  {
    var gone := order(ptr, src.members.Keys - dst.members.Keys);
    var come := order(ptr, dst.members.Keys - src.members.Keys);
    var both := order(ptr, src.members.Keys * dst.members.Keys);
    assert Lists(gone, src.members.Keys - dst.members.Keys) && Lists(come, dst.members.Keys - src.members.Keys);
    assert Lists(both, src.members.Keys * dst.members.Keys);
    RemoveMembersUnpaired(es, ptr, gone, src.members, root);
    var one := RemoveMembers(es, ptr, gone, src.members, root).value;
    AddMembersUnpaired(one, ptr, come, dst.members);
    MembersUnpaired(order, root, AddMembers(one, ptr, come, dst.members).value, ptr, both, src, dst);
  }

  lemma {:induction false} MembersUnpaired(order: Order, root: Json, es: seq<Entry>, ptr: Pointer, names: seq<string>,
                                           src: Json, dst: Json)
    requires Complete(order) && src.Obj? && dst.Obj?
    requires forall n :: n in names ==> n in src.members && n in dst.members
    requires Unpaired(es) && CompareMembers(order, root, es, ptr, names, src, dst).Ok?
    ensures Unpaired(CompareMembers(order, root, es, ptr, names, src, dst).value)
    decreases src, 1, |names|
  {
    if names != [] {
      var n := names[0];
      ValuesUnpaired(order, root, es, ptr + [n], src.members[n], dst.members[n]);
      var next := CompareValues(order, root, es, ptr + [n], src.members[n], dst.members[n]).value;
      MembersUnpaired(order, root, next, ptr, names[1..], src, dst);
    }
  }

  lemma {:induction false} ListsUnpaired(order: Order, root: Json, es: seq<Entry>, ptr: Pointer, key: nat, src: Json,
                                         dst: Json)
    requires Complete(order) && src.Arr? && dst.Arr?
    requires Unpaired(es) && CompareLists(order, root, es, ptr, key, src, dst).Ok?
    ensures Unpaired(CompareLists(order, root, es, ptr, key, src, dst).value)
    decreases src, 1, Max(|src.items|, |dst.items|) - key
  {
    if key < Max(|src.items|, |dst.items|) {
      ElementUnpaired(order, root, es, ptr, key, src, dst);
      ListsUnpaired(order, root, CompareElement(order, root, es, ptr, key, src, dst).value, ptr, key + 1, src, dst);
    }
  }

  lemma ElementUnpaired(order: Order, root: Json, es: seq<Entry>, ptr: Pointer, key: nat, src: Json, dst: Json)
    requires Complete(order) && src.Arr? && dst.Arr? && key < Max(|src.items|, |dst.items|)
    requires Unpaired(es) && CompareElement(order, root, es, ptr, key, src, dst).Ok?
    ensures Unpaired(CompareElement(order, root, es, ptr, key, src, dst).value)
    decreases src, 0, 0
  {
    var here := ptr + [Dec(key)];
    if key < |src.items| && key < |dst.items| {
      var was, now := src.items[key], dst.items[key];
      if was == now {
      } else if was.Obj? && now.Obj? {
        DictsUnpaired(order, root, es, here, was, now);
      } else if was.Arr? && now.Arr? {
        ListsUnpaired(order, root, es, here, 0, was, now);
      } else {
        RemovedUnpaired(es, here, was, root);
        AddedUnpaired(Removed(es, here, was, root).value, here, true, now);
      }
    } else if |src.items| > |dst.items| {
      RemovedUnpaired(es, ptr + [Dec(|dst.items|)], src.items[key], root);
    } else {
      AddedUnpaired(es, here, true, dst.items[key]);
    }
  }

  /** For any two documents: what is recorded has no removal and addition of equal values left. */
  lemma ValuesUnpaired(order: Order, root: Json, es: seq<Entry>, ptr: Pointer, src: Json, dst: Json)
    requires Complete(order)
    requires Unpaired(es) && CompareValues(order, root, es, ptr, src, dst).Ok?
    ensures Unpaired(CompareValues(order, root, es, ptr, src, dst).value)
    decreases src, 3, 0
  {
    if src.Obj? && dst.Obj? {
      DictsUnpaired(order, root, es, ptr, src, dst);
    } else if src.Arr? && dst.Arr? {
      ListsUnpaired(order, root, es, ptr, 0, src, dst);
    }
  }
}
