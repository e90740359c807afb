/** What each patch operation does to a document, as the pointers into it tell. */
module Operations {
  import opened Outcomes
  import opened Text
  import opened Pointers
  import opened Documents
  import opened Patches

  /** Where a value goes in a list: a position up to its length, or behind the last element. */
  function Place(items: seq<Json>, token: string): Option<nat> {
    if token == "-" then Some(|items|)
    else
      match IndexOf(token)
      case Some(i) => if i <= |items| then Some(i) else None
      case None => None
  }

  /** The value is at place i, with the elements before it and behind it in their order. */
  predicate Inserted(items: seq<Json>, items': seq<Json>, i: nat, value: Json) {
    && |items'| == |items| + 1 && i < |items'| && items'[i] == value
    && (forall j :: 0 <= j < i ==> items'[j] == items[j])
    && (forall j :: i < j < |items'| ==> items'[j] == items[j - 1])
  }

  predicate LeftOut(items: seq<Json>, items': seq<Json>, i: nat) {
    && |items'| == |items| - 1 && i < |items|
    && (forall j :: 0 <= j < i ==> items'[j] == items[j])
    && (forall j :: i <= j < |items'| ==> items'[j] == items[j + 1])
  }

  /** A change of the container at front is seen inside it, and nowhere else. */
  lemma Inside(doc: Json, front: Pointer, changed: Json)
    requires Resolve(doc, front).Ok?
    ensures var r := Replant(doc, front, changed);
            && Resolve(r, front) == Ok(changed)
            && (forall q :: Apart(front, q) ==> Resolve(r, q) == Resolve(doc, q))
  {
    ResolveReplant(doc, front, changed);
    forall q | Apart(front, q) ensures Resolve(Replant(doc, front, changed), q) == Resolve(doc, q) {
      ReplantApart(doc, front, q, changed);
    }
  }

  lemma WalkIndex(items: seq<Json>, i: nat)
    ensures Walk(Arr(items), Dec(i)) == if i < |items| then Ok(items[i]) else Raised(PointerError)
    ensures IndexOf(Dec(i)) == Some(i) && Dec(i) != "-"
  {
    IndexOfDec(i);
  }

  // ----- adding ---------------------------------------------------------------------------------

  /**
   An addition succeeds exactly for a member of an object that exists, and for a place of a list that does; as a whole
   only an object is replaced.
   */
  lemma AddSucceeds(doc: Json, p: Pointer, value: Json)
    ensures p == [] ==> ApplyAdd(doc, p, value) == if doc.Obj? then Ok(value) else Raised(PythonTypeError)
    ensures p != [] ==>
            (ApplyAdd(doc, p, value).Ok? <==>
               && Resolve(doc, Front(p)).Ok?
               && (|| Resolve(doc, Front(p)).value.Obj?
                   || (Resolve(doc, Front(p)).value.Arr? && Place(Resolve(doc, Front(p)).value.items, Last(p)).Some?)))
  {
  }

  /**
   An added member is there and the other members are as before; an added element is at its place, with the elements
   before it and behind it in their order. Outside the container nothing changes.
   */
  lemma AddSeen(doc: Json, p: Pointer, value: Json)
    requires p != [] && ApplyAdd(doc, p, value).Ok?
    ensures var (r, front) := (ApplyAdd(doc, p, value).value, Front(p));
            && Resolve(doc, front).Ok? && Resolve(r, front).Ok?
            && (forall q :: Apart(front, q) ==> Resolve(r, q) == Resolve(doc, q))
            && match (Resolve(doc, front).value, Resolve(r, front).value)
               case (Obj(m), Obj(m')) =>
                 forall n :: Walk(Obj(m'), n) == if n == Last(p) then Ok(value) else Walk(Obj(m), n)
               case (Arr(items), Arr(items')) =>
                 Place(items, Last(p)).Some? && Inserted(items, items', Place(items, Last(p)).value, value)
               case _ => false
  {
    var (parent, part) := ToLast(doc, p).value;
    Inside(doc, Front(p), InsertAt(parent, part, value).value);
  }

  /** Unless it appends, an addition leaves the value where its pointer leads; a member's leaves the rest alone. */
  lemma AddResolves(doc: Json, p: Pointer, value: Json)
    requires p != [] && ApplyAdd(doc, p, value).Ok?
    ensures var r := ApplyAdd(doc, p, value).value;
            && (!Appends(doc, p) ==> Resolve(r, p) == Ok(value))
            && (Resolve(doc, Front(p)).value.Obj? ==> forall q :: Apart(p, q) ==> Resolve(r, q) == Resolve(doc, q))
  {
    var r, front := ApplyAdd(doc, p, value).value, Front(p);
    AddSeen(doc, p, value);
    LastToken(r, p);
    if Resolve(doc, front).value.Arr? && !Appends(doc, p) {
      assert Last(p) != "-";
    }
    if Resolve(doc, front).value.Obj? {
      forall q | Apart(p, q) ensures Resolve(r, q) == Resolve(doc, q) {
        MemberApart(doc, r, front, Last(p), q);
      }
    }
  }

  /** Two objects that differ in one member resolve alike away from it. */
  lemma MemberApart(doc: Json, r: Json, front: Pointer, name: string, q: Pointer)
    requires Resolve(doc, front).Ok? && Resolve(r, front).Ok? && Apart(front + [name], q)
    requires Apart(front, q) ==> Resolve(r, q) == Resolve(doc, q)
    requires forall n :: n != name ==> Walk(Resolve(r, front).value, n) == Walk(Resolve(doc, front).value, n)
    ensures Resolve(r, q) == Resolve(doc, q)
  {
    assert q <= front ==> q <= front + [name];
    assert front <= q && |q| > |front| && q[|front|] == name ==> front + [name] <= q;
    if front <= q {
      var rest := q[|front|..];
      assert q == front + rest && rest != [] && rest[0] != name;
      ResolveConcat(doc, front, rest);
      ResolveConcat(r, front, rest);
    }
  }

  // ----- removing -------------------------------------------------------------------------------

  /** A removal succeeds exactly where the pointer leads somewhere. */
  lemma RemoveSucceeds(doc: Json, p: Pointer)
    ensures ApplyRemove(doc, p).Ok? <==> p != [] && Resolve(doc, p).Ok?
  {
    if p != [] { LastToken(doc, p); }
  }

  /** A removed member is gone and the others are as before; behind a removed element the others move up. */
  lemma RemoveSeen(doc: Json, p: Pointer)
    requires ApplyRemove(doc, p).Ok?
    ensures p != []
    ensures var (r, front) := (ApplyRemove(doc, p).value, Front(p));
            && Resolve(doc, front).Ok? && Resolve(r, front).Ok?
            && (forall q :: Apart(front, q) ==> Resolve(r, q) == Resolve(doc, q))
            && match (Resolve(doc, front).value, Resolve(r, front).value)
               case (Obj(m), Obj(m')) =>
                 forall n :: Walk(Obj(m'), n) == if n == Last(p) then Raised(PointerError) else Walk(Obj(m), n)
               case (Arr(items), Arr(items')) =>
                 IndexOf(Last(p)).Some? && LeftOut(items, items', IndexOf(Last(p)).value)
               case _ => false
  {
    var (parent, part) := ToLast(doc, p).value;
    Inside(doc, Front(p), RemoveAt(parent, part).value);
  }

  // ----- replacing ------------------------------------------------------------------------------

  /** A replacement succeeds exactly where the pointer leads somewhere, but not at something called '-'. */
  lemma ReplaceSucceeds(doc: Json, p: Pointer, value: Json)
    ensures ApplyReplace(doc, p, value).Ok? <==> Resolve(doc, p).Ok? && (p == [] || Last(p) != "-")
  {
    if p != [] { LastToken(doc, p); }
  }

  /** It leaves the value where the pointer leads and everything apart from it as it was. */
  lemma ReplaceSeen(doc: Json, p: Pointer, value: Json)
    requires ApplyReplace(doc, p, value).Ok?
    ensures var r := ApplyReplace(doc, p, value).value;
            && Resolve(r, p) == Ok(value)
            && (forall q :: Apart(p, q) ==> Resolve(r, q) == Resolve(doc, q))
  {
    if p != [] {
      var (parent, part) := ToLast(doc, p).value;
      assert ApplyReplace(doc, p, value) == Set(doc, p, value);
      SetResolve(doc, p, value);
      forall q | Apart(p, q) ensures Resolve(Set(doc, p, value).value, q) == Resolve(doc, q) {
        SetApart(doc, p, q, value);
      }
    }
  }

  // ----- copying, moving, testing ---------------------------------------------------------------

  lemma FetchSeen(doc: Json, s: Pointer)
    requires s != []
    ensures match FetchFrom(doc, s)
            case Ok((_, v)) => Resolve(doc, s) == Ok(v)
            case Raised(_) => Resolve(doc, s).Raised?
  {
    LastToken(doc, s);
  }

  /**
   Copying from where there is a value does what adding that value does: it succeeds exactly if that does, and so leaves
   the value where the pointer leads, and the source as it was if it is apart from the new member. From nowhere, or of
   the whole document, it fails.
   */
  lemma CopySeen(doc: Json, s: Pointer, p: Pointer)
    ensures s != [] && Resolve(doc, s).Ok? ==>
              ApplyOp(doc, Copy(s, p)) == ApplyOp(doc, Add(p, Resolve(doc, s).value))
    ensures ApplyOp(doc, Copy(s, p)).Ok? ==>
              && s != [] && Resolve(doc, s).Ok?
              && var (r, v) := (ApplyOp(doc, Copy(s, p)).value, Resolve(doc, s).value);
                 && (!Appends(doc, p) ==> Resolve(r, p) == Ok(v))
                 && (p != [] && Resolve(doc, Front(p)).value.Obj? && Apart(p, s) ==> Resolve(r, s) == Ok(v))
  {
    if s != [] { FetchSeen(doc, s); }
    if ApplyOp(doc, Copy(s, p)).Ok? && p != [] { AddResolves(doc, p, Resolve(doc, s).value); }
  }

  predicate IsMember(doc: Json, p: Pointer)
    requires p != []
  {
    Resolve(doc, Front(p)).Ok? && Resolve(doc, Front(p)).value.Obj?
  }

  /**
   Moving to where the value is changes nothing; a move of a member into itself is refused; any other is the removal and
   then the addition of the value, and fails if one of them does.
   */
  lemma MoveSeen(doc: Json, s: Pointer, p: Pointer)
    ensures (s == [] || Resolve(doc, s).Raised?) ==> ApplyOp(doc, Move(s, p)).Raised?
    ensures s != [] && Resolve(doc, s).Ok? ==>
              ApplyOp(doc, Move(s, p)) ==
                if p == s then Ok(doc)
                else if s <= p && IsMember(doc, s) then Raised(Conflict)
                else Apply(doc, [Remove(s), Add(p, Resolve(doc, s).value)])
  {
    if s != [] { FetchSeen(doc, s); }
    if s != [] && Resolve(doc, s).Ok? {
      LastToken(doc, s);
      RemoveSucceeds(doc, s);
      var v := Resolve(doc, s).value;
      var pair := [Remove(s), Add(p, v)];
      assert pair[1..] == [Add(p, v)] && pair[1..][1..] == [];
      var without := ApplyRemove(doc, s).value;
      assert Apply(without, [Add(p, v)]) == ApplyAdd(without, p, v);
    }
  }

  /** A test succeeds exactly if the pointer leads to that value, and changes nothing. */
  lemma TestSeen(doc: Json, p: Pointer, value: Json)
    ensures ApplyOp(doc, Test(p, value)) ==
            if Resolve(doc, p) == Ok(value) then Ok(doc) else Raised(TestFailed)
  {
  }

  // ----- appending ------------------------------------------------------------------------------

  /** After a set at '-' behind a list the value is its last element, and the others are where they were. */
  lemma SetAppends(doc: Json, front: Pointer, value: Json, rest: Pointer, j: nat)
    requires Resolve(doc, front).Ok? && Resolve(doc, front).value.Arr?
    ensures var n := |Resolve(doc, front).value.items|;
            var r := Set(doc, front + ["-"], value);
            && r.Ok? && Resolve(r.value, front).Ok? && Resolve(r.value, front).value.Arr?
            && |Resolve(r.value, front).value.items| == n + 1
            && Resolve(r.value, front + [Dec(n)]) == Ok(value)
            && (j < n ==> Resolve(r.value, front + [Dec(j)] + rest) == Resolve(doc, front + [Dec(j)] + rest))
  {
    var p := front + ["-"];
    assert p[..|p| - 1] == front && p[|p| - 1] == "-";
    var items := Resolve(doc, front).value.items;
    var r := Set(doc, p, value).value;
    Inside(doc, front, Arr(items + [value]));
    At(r, front, |items|, []);
    assert front + [Dec(|items|)] + [] == front + [Dec(|items|)];
    if j < |items| {
      At(r, front, j, rest);
      At(doc, front, j, rest);
    }
  }

  /** An element of a list, by its index. */
  lemma At(doc: Json, front: Pointer, i: nat, rest: Pointer)
    requires Resolve(doc, front).Ok? && Resolve(doc, front).value.Arr? && i < |Resolve(doc, front).value.items|
    ensures Resolve(doc, front + [Dec(i)] + rest) == Resolve(Resolve(doc, front).value.items[i], rest)
  {
    var items := Resolve(doc, front).value.items;
    assert front + [Dec(i)] + rest == front + ([Dec(i)] + rest);
    ResolveConcat(doc, front, [Dec(i)] + rest);
    WalkIndex(items, i);
    assert ([Dec(i)] + rest)[1..] == rest;
  }
}
