/**
 How the recorded operations are renumbered when an earlier one is taken out of the list: the
 _on_undo_remove and _on_undo_add methods of every operation class, and the loop that runs them
 over all later operations.
 */
module Rewriting {
  import opened Outcomes
  import opened Text
  import opened Pointers
  import opened Documents
  import opened Patches

  /** The path property: the parent's tokens, unescaped, joined by '/'. */
  function ParentPath(ptr: Pointer): string {
    if ptr == [] then "" else PathText(Front(ptr))
  }

  /** The key property where it is compared with an index: a name there is a TypeError or ValueError. */
  function IntKey(ptr: Pointer): Outcome<int> {
    if ptr == [] || PyInt(Last(ptr)).None? then Raised(PythonTypeError)
    else Ok(PyInt(Last(ptr)).value)
  }

  /** The key setter. */
  function WithKey(ptr: Pointer, key: int): Pointer
    requires ptr != []
  {
    Front(ptr) + [Str(key)]
  }

  /** One end of an operation that takes the element at ptr, when an earlier removal at key is undone. */
  function UndoRemoveTaking(ptr: Pointer, path: string, key: int): Outcome<(Pointer, int)> {
    if ParentPath(ptr) != path then Ok((ptr, key))
    else
      var k :- IntKey(ptr);
      Ok(if k >= key then (WithKey(ptr, k + 1), key) else (ptr, key - 1))
  }

  /** One end of an operation that puts an element at ptr, when an earlier removal at key is undone. */
  function UndoRemovePutting(ptr: Pointer, path: string, key: int): Outcome<(Pointer, int)> {
    if ParentPath(ptr) != path then Ok((ptr, key))
    else
      var k :- IntKey(ptr);
      Ok(if k > key then (WithKey(ptr, k + 1), key) else (ptr, key + 1))
  }

  function UndoAddTaking(ptr: Pointer, path: string, key: int): Outcome<(Pointer, int)> {
    if ParentPath(ptr) != path then Ok((ptr, key))
    else
      var k :- IntKey(ptr);
      Ok(if k > key then (WithKey(ptr, k - 1), key) else (ptr, key - 1))
  }

  function UndoAddPutting(ptr: Pointer, path: string, key: int): Outcome<(Pointer, int)> {
    if ParentPath(ptr) != path then Ok((ptr, key))
    else
      var k :- IntKey(ptr);
      Ok(if k > key then (WithKey(ptr, k - 1), key) else (ptr, key + 1))
  }

  /** _on_undo_remove of each class; test and copy have no such method. */
  function UndoRemove(op: Op, path: string, key: int): Outcome<(Op, int)> {
    match op
    case Remove(ptr) =>
      var (ptr', key') :- UndoRemoveTaking(ptr, path, key);
      Ok((Remove(ptr'), key'))
    case Add(ptr, value) =>
      var (ptr', key') :- UndoRemovePutting(ptr, path, key);
      Ok((Add(ptr', value), key'))
    case Replace(_, _) => Ok((op, key))
    case Move(source, ptr) =>
      var (source', key') :- UndoRemoveTaking(source, path, key);
      var (ptr', key'') :- UndoRemovePutting(ptr, path, key');
      Ok((Move(source', ptr'), key''))
    case _ => Raised(PythonTypeError)
  }

  /** _on_undo_add of each class. */
  function UndoAdd(op: Op, path: string, key: int): Outcome<(Op, int)> {
    match op
    case Remove(ptr) =>
      var (ptr', key') :- UndoAddTaking(ptr, path, key);
      Ok((Remove(ptr'), key'))
    case Add(ptr, value) =>
      var (ptr', key') :- UndoAddPutting(ptr, path, key);
      Ok((Add(ptr', value), key'))
    case Replace(_, _) => Ok((op, key))
    case Move(source, ptr) =>
      var (source', key') :- UndoAddTaking(source, path, key);
      var (ptr', key'') :- UndoAddPutting(ptr, path, key');
      Ok((Move(source', ptr'), key''))
    case _ => Raised(PythonTypeError)
  }

  /** A recorded operation, with the value it removes, adds, moves or writes. */
  datatype Entry = Entry(op: Op, item: Json)

  datatype Kind = Adding | Removing

  function Undo(kind: Kind, op: Op, path: string, key: int): Outcome<(Op, int)> {
    if kind == Adding then UndoAdd(op, path, key) else UndoRemove(op, path, key)
  }

  /** The loop over the operations after the one taken out; the key is carried along. */
  function UndoAll(kind: Kind, later: seq<Entry>, path: string, key: int): (r: Outcome<(seq<Entry>, int)>)
    ensures r.Ok? ==> |r.value.0| == |later|
    ensures r.Ok? ==> forall i :: 0 <= i < |later| ==> r.value.0[i].item == later[i].item
    decreases |later|
  {
    if later == [] then Ok(([], key))
    else
      var (op, key') :- Undo(kind, later[0].op, path, key);
      var (rest, key'') :- UndoAll(kind, later[1..], path, key');
      Ok(([Entry(op, later[0].item)] + rest, key''))
  }
}
