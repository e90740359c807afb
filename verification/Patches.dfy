/** The operations of a JSON patch (RFC 6902, section 4) as the patch classes apply them. */
module Patches {
  import opened Outcomes
  import opened Pointers
  import opened Documents

  datatype Op =
    | Remove(ptr: Pointer)
    | Add(ptr: Pointer, value: Json)
    | Replace(ptr: Pointer, value: Json)
    | Move(source: Pointer, ptr: Pointer)
    | Copy(source: Pointer, ptr: Pointer)
    | Test(ptr: Pointer, value: Json)

  /** The statement del parent[part]. */
  function RemoveAt(parent: Json, part: Step): Outcome<Json> {
    match (parent, part)
    case (Obj(m), Member(name)) => if name in m then Ok(Obj(m - {name})) else Raised(Conflict)
    case (Arr(items), Index(i)) =>
      if i < |items| then Ok(Arr(items[..i] + items[i + 1..])) else Raised(Conflict)
    case (Arr(_), End) => Raised(PointerError)
    case _ => Raised(PythonTypeError)
  }

  function InsertAt(parent: Json, part: Step, value: Json): Outcome<Json> {
    match (parent, part)
    case (Obj(m), Member(name)) => Ok(Obj(m[name := value]))
    case (Arr(items), Index(i)) =>
      if i > |items| then Raised(Conflict) else Ok(Arr(items[..i] + [value] + items[i..]))
    case (Arr(items), End) => Ok(Arr(items + [value]))
    case _ => Raised(PythonTypeError)
  }

  /** A member or an element called '-' is refused before the container is looked at. */
  function ReplaceAt(parent: Json, part: Step, value: Json): Outcome<Json> {
    if part == End || part == Member("-") then Raised(InvalidPatch)
    else
      match (parent, part)
      case (Obj(m), Member(name)) => if name in m then Ok(Obj(m[name := value])) else Raised(Conflict)
      case (Arr(items), Index(i)) => if i < |items| then Ok(Arr(items[i := value])) else Raised(Conflict)
      case _ => Raised(PythonTypeError)
  }

  /** The expression parent[part], with a missing key or index reported as a conflict. */
  function Fetch(parent: Json, part: Step): Outcome<Json> {
    match (parent, part)
    case (Obj(m), Member(name)) => if name in m then Ok(m[name]) else Raised(Conflict)
    case (Arr(items), Index(i)) => if i < |items| then Ok(items[i]) else Raised(Conflict)
    case _ => Raised(PythonTypeError)
  }

  function Front(p: Pointer): Pointer
    requires p != []
  {
    p[..|p| - 1]
  }

  function Last(p: Pointer): string
    requires p != []
  {
    p[|p| - 1]
  }

  function ApplyRemove(doc: Json, ptr: Pointer): Outcome<Json> {
    if ptr == [] then
      Raised(if doc.Arr? then PointerError else if doc.Obj? then Conflict else PythonTypeError)
    else
      var (parent, part) :- ToLast(doc, ptr);
      var changed :- RemoveAt(parent, part);
      Ok(Replant(doc, Front(ptr), changed))
  }

  function ApplyAdd(doc: Json, ptr: Pointer, value: Json): Outcome<Json> {
    if ptr == [] then
      if doc.Obj? then Ok(value) else Raised(PythonTypeError)
    else
      var (parent, part) :- ToLast(doc, ptr);
      var changed :- InsertAt(parent, part, value);
      Ok(Replant(doc, Front(ptr), changed))
  }

  function ApplyReplace(doc: Json, ptr: Pointer, value: Json): Outcome<Json> {
    if ptr == [] then Ok(value)
    else
      var (parent, part) :- ToLast(doc, ptr);
      var changed :- ReplaceAt(parent, part, value);
      Ok(Replant(doc, Front(ptr), changed))
  }

  /** The root has no parent to be taken from: subscripting with None fails. */
  function FetchFrom(doc: Json, source: Pointer): Outcome<(Json, Json)> {
    if source == [] then Raised(if doc.Obj? then Conflict else PythonTypeError)
    else
      var (parent, part) :- ToLast(doc, source);
      var value :- Fetch(parent, part);
      Ok((parent, value))
  }

  function ApplyMove(doc: Json, source: Pointer, ptr: Pointer): Outcome<Json> {
    var (parent, value) :- FetchFrom(doc, source);
    if ptr == source then Ok(doc)
    else if parent.Obj? && Contains(ptr, source) then Raised(Conflict)
    else
      var without :- ApplyRemove(doc, source);
      ApplyAdd(without, ptr, value)
  }

  function ApplyOp(doc: Json, op: Op): Outcome<Json> {
    match op
    case Remove(ptr) => ApplyRemove(doc, ptr)
    case Add(ptr, value) => ApplyAdd(doc, ptr, value)
    case Replace(ptr, value) => ApplyReplace(doc, ptr, value)
    case Move(source, ptr) => ApplyMove(doc, source, ptr)
    case Copy(source, ptr) =>
      var (_, value) :- FetchFrom(doc, source);
      ApplyAdd(doc, ptr, value)
    case Test(ptr, value) =>
      match Resolve(doc, ptr)
      case Ok(found) => if found == value then Ok(doc) else Raised(TestFailed)
      case Raised(_) => Raised(TestFailed)
  }

  /** The patch applied operation by operation. */
  function Apply(doc: Json, ops: seq<Op>): Outcome<Json>
    decreases |ops|
  {
    if ops == [] then Ok(doc)
    else
      var next :- ApplyOp(doc, ops[0]);
      Apply(next, ops[1..])
  }

  lemma {:induction false} ApplyConcat(doc: Json, a: seq<Op>, b: seq<Op>)
    ensures Apply(doc, a + b) ==
            (match Apply(doc, a) case Ok(mid) => Apply(mid, b) case Raised(e) => Raised(e))
    decreases |a|
  {
    if a == [] {
      assert a + b == b;
    } else {
      assert (a + b)[1..] == a[1..] + b;
      if ApplyOp(doc, a[0]).Ok? {
        ApplyConcat(ApplyOp(doc, a[0]).value, a[1..], b);
      }
    }
  }

  /** JsonPatch.apply, as the loop over the operations. */
  method ApplyLoop(start: Json, ops: seq<Op>) returns (r: Outcome<Json>)
    ensures r == Apply(start, ops)
  {
    var doc := start;
    for i := 0 to |ops|
      invariant Apply(start, ops) == Apply(doc, ops[i..])
    {
      assert ops[i..][1..] == ops[i + 1..];
      var next := ApplyOp(doc, ops[i]);
      if next.Raised? {
        return next;
      }
      doc := next.value;
    }
    return Ok(doc);
  }

  // ----- fusing a removal and the addition that follows it at the same location ---------

  predicate Fusable(ops: seq<Op>) {
    |ops| > 1 && ops[0].Remove? && ops[1].Add? && ops[0].ptr == ops[1].ptr
  }

  /** What execute yields for the recorded operations. */
  function Fuse(ops: seq<Op>): seq<Op> {
    if ops == [] then []
    else if Fusable(ops) then [Replace(ops[1].ptr, ops[1].value)] + Fuse(ops[2..])
    else [ops[0]] + Fuse(ops[1..])
  }

  /** Some pair that execute fuses is located at a name '-'. */
  predicate FusesDash(ops: seq<Op>) {
    if ops == [] then false
    else if Fusable(ops) then (ops[0].ptr != [] && Last(ops[0].ptr) == "-") || FusesDash(ops[2..])
    else FusesDash(ops[1..])
  }

  /** One fused pair: the replacement does what the removal and the addition did, unless it is refused. */
  lemma FusePair(doc: Json, ptr: Pointer, value: Json)
    requires Apply(doc, [Remove(ptr), Add(ptr, value)]).Ok?
    ensures ptr != []
    ensures ApplyReplace(doc, ptr, value) ==
            if Last(ptr) == "-" then Raised(InvalidPatch) else Apply(doc, [Remove(ptr), Add(ptr, value)])
  {
    var ops := [Remove(ptr), Add(ptr, value)];
    var without := ApplyRemove(doc, ptr).value;
    assert Apply(doc, ops) == ApplyAdd(without, ptr, value) by {
      assert ops[1..] == [Add(ptr, value)] && ops[1..][1..] == [];
      assert Apply(without, [Add(ptr, value)]) == ApplyAdd(without, ptr, value);
    }
    var (parent, part) := ToLast(doc, ptr).value;
    var less := RemoveAt(parent, part).value;
    ResolveReplant(doc, Front(ptr), less);
    ReplantTwice(doc, Front(ptr), less, InsertAt(less, part, value).value);
    match parent {
      case Obj(m) => assert (m - {Last(ptr)})[Last(ptr) := value] == m[Last(ptr) := value];
      case Arr(items) =>
        var i := part.i;
        var cut := items[..i] + items[i + 1..];
        assert cut[..i] + [value] + cut[i..] == items[i := value];
    }
  }

  /**
   A patch that applies still does the same after execute has fused it, except exactly when a fused
   pair is located at a name '-': then the fused patch is refused.
   */
  lemma {:induction false} FuseCorrect(doc: Json, ops: seq<Op>)
    requires Apply(doc, ops).Ok?
    ensures Apply(doc, Fuse(ops)) == if FusesDash(ops) then Raised(InvalidPatch) else Apply(doc, ops)
    decreases |ops|
  {
    if ops != [] {
      if Fusable(ops) {
        var pair := ops[..2];
        assert pair == [Remove(ops[0].ptr), Add(ops[0].ptr, ops[1].value)];
        assert ops == pair + ops[2..];
        ApplyConcat(doc, pair, ops[2..]);
        FusePair(doc, ops[0].ptr, ops[1].value);
        FuseTail(ops);
        FuseCorrect(Apply(doc, pair).value, ops[2..]);
      } else {
        FuseCorrect(ApplyOp(doc, ops[0]).value, ops[1..]);
        assert Fuse(ops)[1..] == Fuse(ops[1..]);
      }
    }
  }

  lemma FuseTail(ops: seq<Op>)
    requires Fusable(ops)
    ensures Fuse(ops)[0] == Replace(ops[1].ptr, ops[1].value)
    ensures Fuse(ops)[1..] == Fuse(ops[2..])
  {
  }

  // ----- replacing something called '-' --------------------------------------------------

  predicate ReplacesDash(op: Op) {
    op.Replace? && op.ptr != [] && Last(op.ptr) == "-"
  }

  /** A patch that replaces something called '-' is never applied to the end. */
  lemma {:induction false} DashRefused(doc: Json, ops: seq<Op>, i: nat)
    requires i < |ops| && ReplacesDash(ops[i])
    ensures Apply(doc, ops).Raised?
    decreases i
  {
    if i > 0 && ApplyOp(doc, ops[0]).Ok? {
      DashRefused(ApplyOp(doc, ops[0]).value, ops[1..], i - 1);
    }
  }

  /** Replacements are not fused away. */
  lemma {:induction false} FuseKeepsReplace(ops: seq<Op>, i: nat) returns (j: nat)
    requires i < |ops| && ops[i].Replace?
    ensures j < |Fuse(ops)| && Fuse(ops)[j] == ops[i]
    decreases i
  {
    if Fusable(ops) {
      j := FuseKeepsReplace(ops[2..], i - 2);
      j := j + 1;
    } else if i == 0 {
      j := 0;
    } else {
      j := FuseKeepsReplace(ops[1..], i - 1);
      j := j + 1;
    }
  }
}
