/**
 JSON documents as values, and what a pointer does to one: walking, resolving and setting.
 Scalars are numbers: one type with one equality, and no subscript operator.
 */
module Documents {
  import opened Outcomes
  import opened Text
  import opened Pointers

  datatype Json =
    | Num(n: int)
    | Arr(items: seq<Json>)
    | Obj(members: map<string, Json>)

  /** What get_part returns for a token: the member name, the array index, or '-'. */
  datatype Step = Member(name: string) | Index(i: nat) | End

  function GetPart(doc: Json, token: string): Outcome<Step> {
    match doc
    case Obj(_) => Ok(Member(token))
    case Arr(_) =>
      if token == "-" then Ok(End)
      else if IndexOf(token).None? then Raised(PointerError)
      else Ok(Index(IndexOf(token).value))
    case Num(_) => Raised(PointerError)
  }

  function Walk(doc: Json, token: string): Outcome<Json> {
    var part :- GetPart(doc, token);
    match part
    case Member(name) => if name in doc.members then Ok(doc.members[name]) else Raised(PointerError)
    case Index(i) => if i < |doc.items| then Ok(doc.items[i]) else Raised(PointerError)
    case End => Raised(PointerError)
  }

  /** The document a pointer leads to. */
  function Resolve(doc: Json, p: Pointer): Outcome<Json> {
    if p == [] then Ok(doc)
    else
      var child :- Walk(doc, p[0]);
      Resolve(child, p[1..])
  }

  /** to_last for a pointer with at least one token: the parent, and the last token read for it. */
  function ToLast(doc: Json, p: Pointer): Outcome<(Json, Step)>
    requires p != []
  {
    var parent :- Resolve(doc, p[..|p| - 1]);
    var part :- GetPart(parent, p[|p| - 1]);
    Ok((parent, part))
  }

  function SetChild(doc: Json, token: string, child: Json): Json
    requires Walk(doc, token).Ok?
  {
    match doc
    case Obj(m) => Obj(m[token := child])
    case Arr(items) => Arr(items[IndexOf(token).value := child])
  }

  /** The document after the container at p has been changed in place into sub. */
  function Replant(doc: Json, p: Pointer, sub: Json): Json
    requires Resolve(doc, p).Ok?
  {
    if p == [] then sub
    else SetChild(doc, p[0], Replant(Walk(doc, p[0]).value, p[1..], sub))
  }

  /** set on a copy of the document: the root is replaced, a '-' appends. */
  function Set(doc: Json, p: Pointer, value: Json): Outcome<Json> {
    if p == [] then Ok(value)
    else
      var (parent, part) :- ToLast(doc, p);
      var changed :- SetIn(parent, part, value);
      Ok(Replant(doc, p[..|p| - 1], changed))
  }

  /** The assignment parent[part] = value, or parent.append(value). */
  function SetIn(parent: Json, part: Step, value: Json): Outcome<Json> {
    match (parent, part)
    case (Obj(m), Member(name)) => Ok(Obj(m[name := value]))
    case (Arr(items), End) => Ok(Arr(items + [value]))
    case (Arr(items), Index(i)) =>
      if i < |items| then Ok(Arr(items[i := value])) else Raised(PythonTypeError)
    case _ => Raised(PythonTypeError)
  }

  /** contains: q is a prefix of p. */
  predicate Contains(p: Pointer, q: Pointer) {
    q <= p
  }

  predicate Apart(p: Pointer, q: Pointer) {
    !Contains(p, q) && !Contains(q, p)
  }

  // ----- the loops of the pointer class -----------------------------------------------

  lemma {:induction false} ResolveConcat(doc: Json, p: Pointer, q: Pointer)
    ensures Resolve(doc, p + q) ==
            (match Resolve(doc, p) case Ok(sub) => Resolve(sub, q) case Raised(e) => Raised(e))
  {
    if p == [] {
      assert p + q == q;
    } else {
      assert (p + q)[1..] == p[1..] + q;
      if Walk(doc, p[0]).Ok? {
        ResolveConcat(Walk(doc, p[0]).value, p[1..], q);
      }
    }
  }

  /** What resolve returns: a document, or the EndOfList object for a '-' behind a list. */
  datatype Found = Document(doc: Json) | EndOf(list: Json)

  /** walk, also of an EndOfList object, which has no parts. */
  function WalkOn(found: Found, token: string): Outcome<Found> {
    match found
    case EndOf(_) => Raised(PointerError)
    case Document(doc) =>
      if doc.Arr? && token == "-" then Ok(EndOf(doc))
      else
        var child :- Walk(doc, token);
        Ok(Document(child))
  }

  /** The document at the pointer, the end of a list, the value given for a pointer that leads nowhere, or the error. */
  function Sought(start: Json, p: Pointer, fallback: Option<Json>): Outcome<Found> {
    if p != [] && p[|p| - 1] == "-" && Resolve(start, p[..|p| - 1]).Ok? && Resolve(start, p[..|p| - 1]).value.Arr?
    then Ok(EndOf(Resolve(start, p[..|p| - 1]).value))
    else
      match Resolve(start, p)
      case Ok(doc) => Ok(Document(doc))
      case Raised(e) => if fallback.Some? then Ok(Document(fallback.value)) else Raised(e)
  }

  lemma WalkFails(doc: Json, token: string)
    ensures Walk(doc, token).Raised? ==> Walk(doc, token).error == PointerError
  {
  }

  lemma SoughtNext(start: Json, p: Pointer, fallback: Option<Json>)
    requires p != []
    ensures match WalkOn(Document(start), p[0])
            case Ok(Document(doc)) => Sought(start, p, fallback) == Sought(doc, p[1..], fallback)
            case Ok(EndOf(list)) =>
              Sought(start, p, fallback) ==
                if |p| == 1 then Ok(EndOf(list))
                else if fallback.Some? then Ok(Document(fallback.value)) else Raised(PointerError)
            case Raised(e) =>
              Sought(start, p, fallback) == if fallback.Some? then Ok(Document(fallback.value)) else Raised(e)
  {
    WalkFails(start, p[0]);
    if |p| > 1 {
      assert p[..|p| - 1][0] == p[0] && p[..|p| - 1][1..] == p[1..][..|p| - 2];
    } else {
      assert p[..0] == [];
    }
  }

  /** resolve, as the loop that rebinds doc, with the value to return instead of raising if one is given. */
  method ResolveLoop(start: Json, p: Pointer, fallback: Option<Json>) returns (r: Outcome<Found>)
    ensures r == Sought(start, p, fallback)
  {
    var found := Document(start);
    for i := 0 to |p|
      invariant match found
                case Document(doc) => Sought(start, p, fallback) == Sought(doc, p[i..], fallback)
                case EndOf(_) => Sought(start, p, fallback) == if i == |p| then Ok(found)
                                   else if fallback.Some? then Ok(Document(fallback.value)) else Raised(PointerError)
    {
      assert p[i..][0] == p[i] && p[i..][1..] == p[i + 1..];
      if found.Document? { SoughtNext(found.doc, p[i..], fallback); }
      var next := WalkOn(found, p[i]);
      if next.Raised? {
        return if fallback.Some? then Ok(Document(fallback.value)) else Raised(next.error);
      }
      found := next.value;
    }
    return Ok(found);
  }

  /** to_last, as the loop that stops before the last token; without tokens there is no last one. */
  method ToLastLoop(start: Json, p: Pointer) returns (r: Outcome<(Json, Option<Step>)>)
    ensures r == if p == [] then Ok((start, None))
                 else
                   match ToLast(start, p)
                   case Ok((parent, part)) => Ok((parent, Some(part)))
                   case Raised(e) => Raised(e)
  {
    if p == [] {
      return Ok((start, None));
    }
    var front := p[..|p| - 1];
    var doc := start;
    for i := 0 to |front|
      invariant Resolve(start, front) == Resolve(doc, front[i..])
    {
      assert front[i..][1..] == front[i + 1..];
      var next := Walk(doc, p[i]);
      if next.Raised? {
        return Raised(next.error);
      }
      doc := next.value;
    }
    var part := GetPart(doc, p[|p| - 1]);
    if part.Raised? {
      return Raised(part.error);
    }
    return Ok((doc, Some(part.value)));
  }

  // ----- laws of Replant ---------------------------------------------------------------

  lemma WalkSetChild(doc: Json, token: string, child: Json, other: string)
    requires Walk(doc, token).Ok?
    ensures Walk(SetChild(doc, token, child), token) == Ok(child)
    ensures other != token ==> Walk(SetChild(doc, token, child), other) == Walk(doc, other)
    ensures SetChild(doc, token, Walk(doc, token).value) == doc
  {
    if other != token && IndexOf(other).Some? && IndexOf(token).Some? && IndexOf(other) == IndexOf(token) {
      IndexInjective(other, token);
    }
    match doc {
      case Obj(m) => assert m[token := m[token]] == m;
      case Arr(items) =>
    }
  }

  lemma {:induction false} ResolveReplant(doc: Json, p: Pointer, sub: Json)
    requires Resolve(doc, p).Ok?
    ensures Resolve(Replant(doc, p, sub), p) == Ok(sub)
    ensures Replant(doc, p, Resolve(doc, p).value) == doc
  {
    if p != [] {
      var child := Walk(doc, p[0]).value;
      ResolveReplant(child, p[1..], sub);
      WalkSetChild(doc, p[0], Replant(child, p[1..], sub), p[0]);
    }
  }

  /** A change at p + q is a change at q inside the container at p. */
  lemma {:induction false} ReplantConcat(doc: Json, p: Pointer, q: Pointer, sub: Json)
    requires Resolve(doc, p).Ok? && Resolve(Resolve(doc, p).value, q).Ok?
    ensures Resolve(doc, p + q) == Resolve(Resolve(doc, p).value, q)
    ensures Replant(doc, p + q, sub) == Replant(doc, p, Replant(Resolve(doc, p).value, q, sub))
  {
    ResolveConcat(doc, p, q);
    if p == [] {
      assert p + q == q;
    } else {
      assert (p + q)[1..] == p[1..] + q;
      ReplantConcat(Walk(doc, p[0]).value, p[1..], q, sub);
    }
  }

  lemma {:induction false} ReplantTwice(doc: Json, p: Pointer, x: Json, y: Json)
    requires Resolve(doc, p).Ok?
    ensures Resolve(Replant(doc, p, x), p).Ok?
    ensures Replant(Replant(doc, p, x), p, y) == Replant(doc, p, y)
  {
    ResolveReplant(doc, p, x);
    if p != [] {
      var child := Walk(doc, p[0]).value;
      ReplantTwice(child, p[1..], x, y);
      WalkSetChild(doc, p[0], Replant(child, p[1..], x), p[0]);
      match doc {
        case Obj(m) =>
        case Arr(items) =>
      }
    }
  }

  lemma {:induction false} ReplantApart(doc: Json, p: Pointer, q: Pointer, sub: Json)
    requires Resolve(doc, p).Ok? && Apart(p, q)
    ensures Resolve(Replant(doc, p, sub), q) == Resolve(doc, q)
  {
    assert p != [] && q != [];
    var child := Walk(doc, p[0]).value;
    WalkSetChild(doc, p[0], Replant(child, p[1..], sub), q[0]);
    if p[0] == q[0] {
      assert p == [p[0]] + p[1..] && q == [q[0]] + q[1..];
      ReplantApart(child, p[1..], q[1..], sub);
    }
  }

  // ----- laws of set -------------------------------------------------------------------

  /** The parent of p is an array and the last token is '-'. */
  predicate Appends(doc: Json, p: Pointer) {
    p != [] && ToLast(doc, p).Ok? && ToLast(doc, p).value.1 == End
  }

  /** A set that appends nothing is a change of the container's child at the last token. */
  lemma SetInWalk(parent: Json, token: string, value: Json, other: string)
    requires GetPart(parent, token).Ok? && GetPart(parent, token).value != End
    requires SetIn(parent, GetPart(parent, token).value, value).Ok?
    ensures var changed := SetIn(parent, GetPart(parent, token).value, value).value;
            && Walk(changed, token) == Ok(value)
            && (other != token ==> Walk(changed, other) == Walk(parent, other))
            && (Walk(parent, token) == Ok(value) ==> changed == parent)
  {
    if other != token && IndexOf(other).Some? && IndexOf(token).Some? && IndexOf(other) == IndexOf(token) {
      IndexInjective(other, token);
    }
  }

  lemma LastToken(doc: Json, p: Pointer)
    requires p != []
    ensures p == p[..|p| - 1] + [p[|p| - 1]]
    ensures Resolve(doc, p) ==
            (match Resolve(doc, p[..|p| - 1]) case Ok(parent) => Walk(parent, p[|p| - 1]) case Raised(e) => Raised(e))
  {
    var front, last := p[..|p| - 1], p[|p| - 1];
    assert p == front + [last];
    ResolveConcat(doc, front, [last]);
    if Resolve(doc, front).Ok? {
      assert [last][1..] == [];
    }
  }

  /** After a successful set the pointer resolves to the value, except exactly when the set appended. */
  lemma SetResolve(doc: Json, p: Pointer, value: Json)
    requires Set(doc, p, value).Ok?
    ensures Resolve(Set(doc, p, value).value, p) == Ok(value) <==> !Appends(doc, p)
  {
    if p != [] {
      var (parent, part) := ToLast(doc, p).value;
      var changed := SetIn(parent, part, value).value;
      var front := p[..|p| - 1];
      ResolveReplant(doc, front, changed);
      LastToken(Set(doc, p, value).value, p);
      if part != End {
        SetInWalk(parent, p[|p| - 1], value, p[|p| - 1]);
      }
    }
  }

  /** Setting what is already there changes nothing. */
  lemma SetSame(doc: Json, p: Pointer, value: Json)
    requires Resolve(doc, p) == Ok(value)
    ensures Set(doc, p, value) == Ok(doc)
  {
    if p != [] {
      LastToken(doc, p);
      var front := p[..|p| - 1];
      var parent := Resolve(doc, front).value;
      SetInWalk(parent, p[|p| - 1], value, p[|p| - 1]);
      ResolveReplant(doc, front, parent);
    }
  }

  /** A set that does not append leaves every pointer apart from it resolving as before, errors included. */
  lemma SetApart(doc: Json, p: Pointer, q: Pointer, value: Json)
    requires Set(doc, p, value).Ok? && !Appends(doc, p) && Apart(p, q)
    ensures Resolve(Set(doc, p, value).value, q) == Resolve(doc, q)
  {
    var (parent, part) := ToLast(doc, p).value;
    var changed := SetIn(parent, part, value).value;
    var front, last := p[..|p| - 1], p[|p| - 1];
    assert p == front + [last];
    if Apart(front, q) {
      ReplantApart(doc, front, q, changed);
    } else if front <= q {
      SetSibling(doc, front, last, q[|front|..], value);
      assert q == front + q[|front|..];
    }
  }

  lemma SetSibling(doc: Json, front: Pointer, last: string, rest: Pointer, value: Json)
    requires Set(doc, front + [last], value).Ok? && !Appends(doc, front + [last]) && rest != [] && rest[0] != last
    ensures Resolve(Set(doc, front + [last], value).value, front + rest) == Resolve(doc, front + rest)
  {
    var p := front + [last];
    assert p[..|p| - 1] == front && p[|p| - 1] == last;
    var (parent, part) := ToLast(doc, p).value;
    var changed := SetIn(parent, part, value).value;
    ResolveReplant(doc, front, changed);
    ResolveConcat(doc, front, rest);
    ResolveConcat(Replant(doc, front, changed), front, rest);
    SetInWalk(parent, last, value, rest[0]);
  }
}
