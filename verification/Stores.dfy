/**
 The documents a diff is being applied to, seen as cells in slots. Every cell remembers whether it has
 been there from the start or was put there by an operation; an operation may take only the former. Under
 that rule an operation can be carried past all later ones.
 */
module Stores {
  import opened Outcomes
  import opened Pointers
  import opened Documents

  datatype Cell = Cell(v: Json, added: bool)

  /** A list of cells, one value, or the place of a member that was removed. */
  datatype Slot = Many(cells: seq<Cell>) | One(cell: Cell) | Gone

  type Store = map<Pointer, Slot>

  /** An element of the list at c, or a whole member at q. */
  datatype Loc = Elem(c: Pointer, i: int) | Whole(q: Pointer)

  datatype Action =
    | Rem(l: Loc, v: Json)
    | Ins(l: Loc, v: Json)
    | Mov(l: Loc, t: Loc, v: Json)
    | Rep(q: Pointer, v: Json)

  function Cut<T>(s: seq<T>, i: nat): seq<T>
    requires i < |s|
  {
    s[..i] + s[i + 1..]
  }

  function Paste<T>(s: seq<T>, i: nat, x: T): seq<T>
    requires i <= |s|
  {
    s[..i] + [x] + s[i..]
  }

  /** Take the value v, which must have been there from the start. */
  function Take(S: Store, l: Loc, v: Json): Option<Store> {
    match l
    case Elem(c, i) =>
      if c in S && S[c].Many? && 0 <= i < |S[c].cells| && S[c].cells[i] == Cell(v, false)
      then Some(S[c := Many(Cut(S[c].cells, i))]) else None
    case Whole(q) =>
      if q in S && S[q] == One(Cell(v, false)) then Some(S[q := Gone]) else None
  }

  /** Put the value v; a member goes where there has never been one. */
  function Put(S: Store, l: Loc, v: Json): Option<Store> {
    match l
    case Elem(c, i) =>
      if c in S && S[c].Many? && 0 <= i <= |S[c].cells|
      then Some(S[c := Many(Paste(S[c].cells, i, Cell(v, true)))]) else None
    case Whole(q) =>
      if q !in S then Some(S[q := One(Cell(v, true))]) else None
  }

  function Write(S: Store, q: Pointer, v: Json): Option<Store> {
    if q in S && S[q].One? && !S[q].cell.added then Some(S[q := One(Cell(v, true))]) else None
  }

  function Perform(S: Store, a: Action): Option<Store> {
    match a
    case Rem(l, v) => Take(S, l, v)
    case Ins(l, v) => Put(S, l, v)
    case Mov(l, t, v) => if Take(S, l, v).Some? then Put(Take(S, l, v).value, t, v) else None
    case Rep(q, v) => Write(S, q, v)
  }

  function Run(S: Store, acts: seq<Action>): Option<Store>
    decreases |acts|
  {
    if acts == [] then Some(S)
    else if Perform(S, acts[0]).Some? then Run(Perform(S, acts[0]).value, acts[1..])
    else None
  }

  lemma {:induction false} RunConcat(S: Store, a: seq<Action>, b: seq<Action>)
    ensures Run(S, a + b) == if Run(S, a).Some? then Run(Run(S, a).value, b) else None
    decreases |a|
  {
    if a == [] {
      assert a + b == b;
    } else {
      assert (a + b)[1..] == a[1..] + b;
      if Perform(S, a[0]).Some? {
        RunConcat(Perform(S, a[0]).value, a[1..], b);
      }
    }
  }

  lemma RunOne(S: Store, a: Action)
    ensures Run(S, [a]) == Perform(S, a)
  {
    assert [a][1..] == [];
  }

  // ----- carrying an action past one end of a later one ------------------------------------
  // Each function gives the later location and the carried location, renumbered.

  predicate SameList(l: Loc, m: Loc) {
    l.Elem? && m.Elem? && l.c == m.c
  }

  function RemPastTake(l: Loc, m: Loc): (Loc, Loc) {
    if !SameList(l, m) then (m, l)
    else if m.i >= l.i then (Elem(m.c, m.i + 1), l)
    else (m, Elem(l.c, l.i - 1))
  }

  function RemPastPut(l: Loc, m: Loc): (Loc, Loc) {
    if !SameList(l, m) then (m, l)
    else if m.i > l.i then (Elem(m.c, m.i + 1), l)
    else (m, Elem(l.c, l.i + 1))
  }

  function InsPastTake(l: Loc, m: Loc): (Loc, Loc) {
    if !SameList(l, m) then (m, l)
    else if m.i > l.i then (Elem(m.c, m.i - 1), l)
    else (m, Elem(l.c, l.i - 1))
  }

  function InsPastPut(l: Loc, m: Loc): (Loc, Loc) {
    if !SameList(l, m) then (m, l)
    else if m.i > l.i then (Elem(m.c, m.i - 1), l)
    else (m, Elem(l.c, l.i + 1))
  }

  lemma CutCut<T>(s: seq<T>, i: nat, j: nat)
    requires i < |s| && j < |s| - 1
    ensures j >= i ==> Cut(Cut(s, i), j) == Cut(Cut(s, j + 1), i)
    ensures j < i ==> Cut(Cut(s, i), j) == Cut(Cut(s, j), i - 1)
  {
    if j >= i {
      assert Cut(Cut(s, i), j) == s[..i] + s[i + 1..j + 1] + s[j + 2..] == Cut(Cut(s, j + 1), i);
    } else {
      assert Cut(Cut(s, i), j) == s[..j] + s[j + 1..i] + s[i + 1..] == Cut(Cut(s, j), i - 1);
    }
  }

  lemma CutPaste<T>(s: seq<T>, i: nat, j: nat, x: T)
    requires i < |s| && j <= |s| - 1
    ensures j > i ==> Paste(Cut(s, i), j, x) == Cut(Paste(s, j + 1, x), i)
    ensures j <= i ==> Paste(Cut(s, i), j, x) == Cut(Paste(s, j, x), i + 1)
  {
    if j > i {
      assert Paste(Cut(s, i), j, x) == s[..i] + s[i + 1..j + 1] + [x] + s[j + 1..] == Cut(Paste(s, j + 1, x), i);
    } else {
      assert Paste(Cut(s, i), j, x) == s[..j] + [x] + s[j..i] + s[i + 1..] == Cut(Paste(s, j, x), i + 1);
    }
  }

  lemma PasteCut<T>(s: seq<T>, i: nat, j: nat, x: T)
    requires i <= |s| && j <= |s| && i != j
    ensures j > i ==> Cut(Paste(s, i, x), j) == Paste(Cut(s, j - 1), i, x)
    ensures j < i ==> Cut(Paste(s, i, x), j) == Paste(Cut(s, j), i - 1, x)
  {
    if j > i {
      assert Cut(Paste(s, i, x), j) == s[..i] + [x] + s[i..j - 1] + s[j..] == Paste(Cut(s, j - 1), i, x);
    } else {
      assert Cut(Paste(s, i, x), j) == s[..j] + s[j + 1..i] + [x] + s[i..] == Paste(Cut(s, j), i - 1, x);
    }
  }

  lemma PastePaste<T>(s: seq<T>, i: nat, j: nat, x: T, y: T)
    requires i <= |s| && j <= |s| + 1
    ensures j > i ==> Paste(Paste(s, i, x), j, y) == Paste(Paste(s, j - 1, y), i, x)
    ensures j <= i ==> Paste(Paste(s, i, x), j, y) == Paste(Paste(s, j, y), i + 1, x)
  {
    if j > i {
      assert Paste(Paste(s, i, x), j, y) == s[..i] + [x] + s[i..j - 1] + [y] + s[j - 1..] ==
               Paste(Paste(s, j - 1, y), i, x);
    } else {
      assert Paste(Paste(s, i, x), j, y) == s[..j] + [y] + s[j..i] + [x] + s[i..] == Paste(Paste(s, j, y), i + 1, x);
    }
  }

  function KeyOf(l: Loc): Pointer {
    match l case Elem(c, _) => c case Whole(q) => q
  }

  lemma Swap(S: Store, a: Pointer, x: Slot, b: Pointer, y: Slot)
    requires a != b
    ensures S[a := x][b := y] == S[b := y][a := x]
  {
  }

  lemma Over(S: Store, a: Pointer, x: Slot, y: Slot)
    ensures S[a := x][a := y] == S[a := y]
  {
  }

  lemma RemTakeSame(S: Store, l: Loc, v: Json, m: Loc, w: Json)
    requires SameList(l, m)
    requires Take(S, l, v).Some? && Take(Take(S, l, v).value, m, w).Some?
    ensures var (m', l') := RemPastTake(l, m);
            && Take(S, m', w).Some?
            && Take(Take(S, m', w).value, l', v) == Take(Take(S, l, v).value, m, w)
  {
    var (m', l') := RemPastTake(l, m);
    var cells := S[l.c].cells;
    CutCut(cells, l.i, m.i);
    var final := Many(Cut(Cut(cells, l.i), m.i));
    Over(S, l.c, Many(Cut(cells, l.i)), final);
    Over(S, l.c, Many(Cut(cells, m'.i)), final);
  }

  lemma RemTake(S: Store, l: Loc, v: Json, m: Loc, w: Json)
    requires Take(S, l, v).Some? && Take(Take(S, l, v).value, m, w).Some?
    ensures var (m', l') := RemPastTake(l, m);
            && Take(S, m', w).Some?
            && Take(Take(S, m', w).value, l', v) == Take(Take(S, l, v).value, m, w)
  {
    if SameList(l, m) {
      RemTakeSame(S, l, v, m, w);
    } else {
      var first := Take(S, l, v).value;
      var both := Take(first, m, w).value;
      Swap(S, KeyOf(l), first[KeyOf(l)], KeyOf(m), both[KeyOf(m)]);
    }
  }

  lemma RemPutSame(S: Store, l: Loc, v: Json, m: Loc, w: Json)
    requires SameList(l, m)
    requires Take(S, l, v).Some? && Put(Take(S, l, v).value, m, w).Some?
    ensures var (m', l') := RemPastPut(l, m);
            && Put(S, m', w).Some?
            && Take(Put(S, m', w).value, l', v) == Put(Take(S, l, v).value, m, w)
  {
    var first := Take(S, l, v).value;
    var both := Put(first, m, w).value;
    var (m', _) := RemPastPut(l, m);
    CutPaste(S[l.c].cells, l.i, m.i, Cell(w, true));
    Over(S, l.c, first[l.c], both[l.c]);
    Over(S, l.c, Put(S, m', w).value[l.c], both[l.c]);
  }

  lemma RemPut(S: Store, l: Loc, v: Json, m: Loc, w: Json)
    requires Take(S, l, v).Some? && Put(Take(S, l, v).value, m, w).Some?
    ensures var (m', l') := RemPastPut(l, m);
            && Put(S, m', w).Some?
            && Take(Put(S, m', w).value, l', v) == Put(Take(S, l, v).value, m, w)
  {
    if SameList(l, m) {
      RemPutSame(S, l, v, m, w);
    } else {
      var first := Take(S, l, v).value;
      var both := Put(first, m, w).value;
      Swap(S, KeyOf(l), first[KeyOf(l)], KeyOf(m), both[KeyOf(m)]);
    }
  }

  lemma InsTake(S: Store, l: Loc, v: Json, m: Loc, w: Json)
    requires Put(S, l, v).Some? && Take(Put(S, l, v).value, m, w).Some?
    ensures var (m', l') := InsPastTake(l, m);
            && Take(S, m', w).Some?
            && Put(Take(S, m', w).value, l', v) == Take(Put(S, l, v).value, m, w)
  {
    var first := Put(S, l, v).value;
    var both := Take(first, m, w).value;
    var (m', l') := InsPastTake(l, m);
    if SameList(l, m) {
      PasteCut(S[l.c].cells, l.i, m.i, Cell(v, true));
      Over(S, l.c, first[l.c], both[l.c]);
      Over(S, l.c, Take(S, m', w).value[l.c], both[l.c]);
    } else {
      Swap(S, KeyOf(l), first[KeyOf(l)], KeyOf(m), both[KeyOf(m)]);
    }
  }

  lemma InsPut(S: Store, l: Loc, v: Json, m: Loc, w: Json)
    requires Put(S, l, v).Some? && Put(Put(S, l, v).value, m, w).Some?
    ensures var (m', l') := InsPastPut(l, m);
            && Put(S, m', w).Some?
            && Put(Put(S, m', w).value, l', v) == Put(Put(S, l, v).value, m, w)
  {
    var first := Put(S, l, v).value;
    var both := Put(first, m, w).value;
    var (m', l') := InsPastPut(l, m);
    if SameList(l, m) {
      PastePaste(S[l.c].cells, l.i, m.i, Cell(v, true), Cell(w, true));
      Over(S, l.c, first[l.c], both[l.c]);
      Over(S, l.c, Put(S, m', w).value[l.c], both[l.c]);
    } else {
      Swap(S, KeyOf(l), first[KeyOf(l)], KeyOf(m), both[KeyOf(m)]);
    }
  }

  // ----- carrying an action past whole actions ----------------------------------------------

  /** The later action and the carried location, when a removal at l is taken out in front of it. */
  function RemPast(l: Loc, a: Action): (Action, Loc) {
    match a
    case Rem(m, w) => var (m', l') := RemPastTake(l, m); (Rem(m', w), l')
    case Ins(m, w) => var (m', l') := RemPastPut(l, m); (Ins(m', w), l')
    case Mov(m, t, w) =>
      var (m', l') := RemPastTake(l, m);
      var (t', l'') := RemPastPut(l', t);
      (Mov(m', t', w), l'')
    case Rep(_, _) => (a, l)
  }

  function InsPast(l: Loc, a: Action): (Action, Loc) {
    match a
    case Rem(m, w) => var (m', l') := InsPastTake(l, m); (Rem(m', w), l')
    case Ins(m, w) => var (m', l') := InsPastPut(l, m); (Ins(m', w), l')
    case Mov(m, t, w) =>
      var (m', l') := InsPastTake(l, m);
      var (t', l'') := InsPastPut(l', t);
      (Mov(m', t', w), l'')
    case Rep(_, _) => (a, l)
  }

  function Past(ins: bool, l: Loc, a: Action): (Action, Loc) {
    if ins then InsPast(l, a) else RemPast(l, a)
  }

  function PastAll(ins: bool, l: Loc, acts: seq<Action>): (r: (seq<Action>, Loc))
    ensures |r.0| == |acts|
    decreases |acts|
  {
    if acts == [] then ([], l)
    else
      var (a, l') := Past(ins, l, acts[0]);
      var (rest, l'') := PastAll(ins, l', acts[1..]);
      ([a] + rest, l'')
  }

  /** Take or put one value. */
  function Act(ins: bool, S: Store, l: Loc, v: Json): Option<Store> {
    if ins then Put(S, l, v) else Take(S, l, v)
  }

  lemma PastStep(ins: bool, S: Store, l: Loc, v: Json, a: Action)
    requires Act(ins, S, l, v).Some? && Perform(Act(ins, S, l, v).value, a).Some?
    ensures var (a', l') := Past(ins, l, a);
            && Perform(S, a').Some?
            && Act(ins, Perform(S, a').value, l', v) == Perform(Act(ins, S, l, v).value, a)
  {
    match a {
      case Rem(m, w) => if ins { InsTake(S, l, v, m, w); } else { RemTake(S, l, v, m, w); }
      case Ins(m, w) => if ins { InsPut(S, l, v, m, w); } else { RemPut(S, l, v, m, w); }
      case Mov(m, t, w) =>
        if ins {
          InsTake(S, l, v, m, w);
          var (m', l') := InsPastTake(l, m);
          InsPut(Take(S, m', w).value, l', v, t, w);
        } else {
          RemTake(S, l, v, m, w);
          var (m', l') := RemPastTake(l, m);
          RemPut(Take(S, m', w).value, l', v, t, w);
        }
      case Rep(q, w) =>
        var late := Act(ins, Write(S, q, w).value, l, v);
        assert late.Some? && late.value == Write(Act(ins, S, l, v).value, q, w).value;
    }
  }

  /**
   Taking a removal (or an addition) out of a chain of any length and doing it at the end, at the location
   computed along the chain, gives the same store, and every renumbered operation stays in bounds.
   */
  lemma {:induction false} PastRun(ins: bool, S: Store, l: Loc, v: Json, acts: seq<Action>)
    requires Act(ins, S, l, v).Some? && Run(Act(ins, S, l, v).value, acts).Some?
    ensures var (acts', l') := PastAll(ins, l, acts);
            && Run(S, acts').Some?
            && Act(ins, Run(S, acts').value, l', v) == Run(Act(ins, S, l, v).value, acts)
    decreases |acts|
  {
    if acts != [] {
      PastStep(ins, S, l, v, acts[0]);
      var (a, l') := Past(ins, l, acts[0]);
      PastRun(ins, Perform(S, a).value, l', v, acts[1..]);
      var (rest, l'') := PastAll(ins, l', acts[1..]);
      assert ([a] + rest)[1..] == rest;
    }
  }

  /** A member's location never changes, and changes nothing. */
  lemma {:induction false} PastWhole(ins: bool, q: Pointer, acts: seq<Action>)
    ensures PastAll(ins, Whole(q), acts) == (acts, Whole(q))
    decreases |acts|
  {
    if acts != [] {
      PastWhole(ins, q, acts[1..]);
      assert [acts[0]] + acts[1..] == acts;
    }
  }

  /** Carrying an action past others changes their locations only. */
  lemma {:induction false} PastShape(ins: bool, l: Loc, acts: seq<Action>)
    ensures var acts' := PastAll(ins, l, acts).0;
            forall i :: 0 <= i < |acts| ==> acts'[i].v == acts[i].v && (acts'[i].Rem? <==> acts[i].Rem?)
    decreases |acts|
  {
    if acts != [] {
      PastShape(ins, Past(ins, l, acts[0]).1, acts[1..]);
    }
  }

  // ----- stores that differ only in being less fresh -----------------------------------------

  predicate BelowCell(a: Cell, b: Cell) {
    a.v == b.v && (a.added ==> b.added)
  }

  predicate BelowSlot(a: Slot, b: Slot) {
    match (a, b)
    case (Many(x), Many(y)) => |x| == |y| && forall i :: 0 <= i < |x| ==> BelowCell(x[i], y[i])
    case (One(x), One(y)) => BelowCell(x, y)
    case (Gone, Gone) => true
    case _ => false
  }

  /** The same values in the same places, and nothing fresh that is not fresh in T. */
  ghost predicate Below(S: Store, T: Store) {
    S.Keys == T.Keys && forall k :: k in S ==> BelowSlot(S[k], T[k])
  }

  /** Taking a value and putting it back only makes its cell fresh. */
  lemma TakePutSame(S: Store, l: Loc, v: Json)
    requires Take(S, l, v).Some? && Put(Take(S, l, v).value, l, v).Some?
    ensures Below(S, Put(Take(S, l, v).value, l, v).value)
  {
  }
}
