/** Inputs on which the diff goes wrong, one for each condition of the round trip; the other conditions hold there. */
module Limits {
  import opened Outcomes
  import opened Text
  import opened Pointers
  import opened Documents
  import opened Patches
  import opened Rewriting
  import opened Diffs
  import opened Recording
  import opened Holes
  import opened Timing
  import opened Moves

  lemma {:induction false} ListsLength(s: seq<string>, names: set<string>)
    requires Lists(s, names)
    ensures |s| == |names|
  {
    if s != [] {
      assert s[0] in s;
      forall n | n in names && n != s[0] ensures n in s[1..] {
        assert n in s;
      }
      ListsLength(s[1..], names - {s[0]});
    } else {
      assert names == {};
    }
  }

  lemma OrderOfNone(order: Order, p: Pointer)
    requires Complete(order)
    ensures order(p, {}) == []
  {
    ListsLength(order(p, {}), {});
  }

  lemma OrderOfOne(order: Order, p: Pointer, n: string)
    requires Complete(order)
    ensures order(p, {n}) == [n]
  {
    var s := order(p, {n});
    ListsLength(s, {n});
    assert s[0] in s;
  }

  lemma SmallDecs()
    ensures Dec(0) == "0" && Dec(1) == "1"
  {
  }

  // ----- a value that a list loses and an object gains -----------------------------------------

  const LIST_LOSES := Obj(map["a" := Arr([Num(1)]), "b" := Obj(map[])])
  const OBJECT_GAINS := Obj(map["a" := Arr([Num(2)]), "b" := Obj(map["k" := Num(1)])])

  /** What has been recorded when the list has been compared. */
  const LIST_RECORD := [Entry(Remove(["a", "0"]), Num(1)), Entry(Add(["a", "0"], Num(2)), Num(2))]

  const MOVE_RECORD := [Entry(Add(["a", "0"], Num(2)), Num(2)), Entry(Move(["a", "0"], ["b", "k"]), Num(1))]

  lemma ListCompared(order: Order, root: Json)
    requires Complete(order)
    ensures CompareValues(order, root, [], ["a"], Arr([Num(1)]), Arr([Num(2)])) == Ok(LIST_RECORD)
  {
    SmallDecs();
    var p: Pointer := ["a"];
    assert p + ["0"] == ["a", "0"];
    var s, t := Arr([Num(1)]), Arr([Num(2)]);
    var one := [Entry(Remove(["a", "0"]), Num(1))];
    assert [] + one == one;
    assert LastMatch(one, Removing, Num(2)) == None;
    assert one + [Entry(Add(["a", "0"], Num(2)), Num(2))] == LIST_RECORD;
    assert CompareElement(order, root, [], p, 0, s, t) == Ok(LIST_RECORD);
    assert CompareLists(order, root, LIST_RECORD, p, 1, s, t) == Ok(LIST_RECORD);
  }

  /** The removal is taken for the start of the move, but is not renumbered past the addition at its place. */
  lemma MemberGained()
    ensures Added(LIST_RECORD, ["b", "k"], false, Num(1))
            == Ok(MOVE_RECORD)
  {
    var es := LIST_RECORD;
    assert LastMatch(es, Removing, Num(1)) == Some(0);
    assert es[..0] + es[1..] == [es[1]];
    var taken: Pointer := ["a", "0"];
    assert taken != ["b", "k"] by {
      assert taken[0] == "a";
    }
    assert AddedFor(es, 0, ["b", "k"], false, Num(1)) == Ok([es[1]] + [Entry(Move(taken, ["b", "k"]), Num(1))]);
    assert [es[1]] + [Entry(Move(taken, ["b", "k"]), Num(1))] == MOVE_RECORD;
  }

  lemma ObjectCompared(order: Order, root: Json)
    requires Complete(order)
    ensures CompareValues(order, root, LIST_RECORD, ["b"], Obj(map[]), Obj(map["k" := Num(1)]))
            == Added(LIST_RECORD, ["b", "k"], false, Num(1))
  {
    var p: Pointer := ["b"];
    var s, t := Obj(map[]), Obj(map["k" := Num(1)]);
    OrderOfNone(order, p);
    OrderOfOne(order, p, "k");
    assert s.members.Keys - t.members.Keys == {} && t.members.Keys - s.members.Keys == {"k"};
    assert s.members.Keys * t.members.Keys == {};
    assert p + ["k"] == ["b", "k"] && ["k"][1..] == [];
    MemberGained();
  }

  /**
   Everything but disjointness of lost and gained values holds for these two documents, and when the list is
   visited first the patch moves the wrong element: the conversion of the index is skipped for a value that
   is added as a member.
   */
  lemma ListValueGainedAsMember(order: Order)
    requires Complete(order) && order([], {"a", "b"}) == ["a", "b"]
    ensures FromDiff(order, LIST_LOSES, OBJECT_GAINS)
            == Ok(GAINED_PATCH)
    ensures Apply(LIST_LOSES, FromDiff(order, LIST_LOSES, OBJECT_GAINS).value)
            == Ok(Obj(map["a" := Arr([Num(1)]), "b" := Obj(map["k" := Num(2)])]))
    ensures Apply(LIST_LOSES, FromDiff(order, LIST_LOSES, OBJECT_GAINS).value) != Ok(OBJECT_GAINS)
  {
    OrderOfNone(order, []);
    var src, dst := LIST_LOSES, OBJECT_GAINS;
    assert src.members.Keys - dst.members.Keys == {} && dst.members.Keys - src.members.Keys == {};
    assert src.members.Keys * dst.members.Keys == {"a", "b"};
    BothCompared(order);
    assert Ops(MOVE_RECORD) == GAINED_PATCH;
    assert GAINED_PATCH[1..] == [GAINED_PATCH[1]] && GAINED_PATCH[1..][1..] == [];
    assert Fuse(GAINED_PATCH) == GAINED_PATCH;
    GainedApplied();
  }

  const GAINED_PATCH := [Add(["a", "0"], Num(2)), Move(["a", "0"], ["b", "k"])]

  lemma BothCompared(order: Order)
    requires Complete(order)
    ensures CompareMembers(order, OBJECT_GAINS, [], [], ["a", "b"], LIST_LOSES, OBJECT_GAINS) == Ok(MOVE_RECORD)
  {
    var src, dst := LIST_LOSES, OBJECT_GAINS;
    ListCompared(order, dst);
    ObjectCompared(order, dst);
    MemberGained();
    assert ["a", "b"][1..] == ["b"] && ["b"][1..] == [];
    assert [] + ["a"] == ["a"] && [] + ["b"] == ["b"];
    assert CompareMembers(order, dst, LIST_RECORD, [], ["b"], src, dst) == Ok(MOVE_RECORD);
  }

  lemma GainedApplied()
    ensures Apply(LIST_LOSES, GAINED_PATCH)
            == Ok(Obj(map["a" := Arr([Num(1)]), "b" := Obj(map["k" := Num(2)])]))
  {
    SmallDecs();
    IndexOfDec(0);
    var mid := Obj(map["a" := Arr([Num(2), Num(1)]), "b" := Obj(map[])]);
    var taken := Obj(map["a" := Arr([Num(1)]), "b" := Obj(map[])]);
    var end := Obj(map["a" := Arr([Num(1)]), "b" := Obj(map["k" := Num(2)])]);
    var ops := GAINED_PATCH;
    ChangedChild(LIST_LOSES, "a", "0", Arr([Num(2), Num(1)]));
    assert [Num(1)][..0] + [Num(2)] + [Num(1)][0..] == [Num(2), Num(1)];
    assert LIST_LOSES.members["a" := Arr([Num(2), Num(1)])] == mid.members;
    ChangedChild(mid, "a", "0", Arr([Num(1)]));
    assert [Num(2), Num(1)][..0] + [Num(2), Num(1)][1..] == [Num(1)];
    assert mid.members["a" := Arr([Num(1)])] == taken.members;
    ChangedChild(taken, "b", "k", Obj(map["k" := Num(2)]));
    assert taken.members["b" := Obj(map["k" := Num(2)])] == end.members;
    assert ["a", "0"][0] != ["b", "k"][0];
    assert ApplyMove(mid, ["a", "0"], ["b", "k"]) == Ok(end);
    assert ops[1..] == [ops[1]] && ops[1..][1..] == [];
    assert Apply(mid, [ops[1]]) == Ok(end);
  }

  /** An operation at a member of a member of the root. */
  lemma ChangedChild(doc: Json, n: string, token: string, sub: Json)
    requires doc.Obj? && n in doc.members
    ensures Front([n, token]) == [n] && Last([n, token]) == token
    ensures Resolve(doc, [n]) == Ok(doc.members[n])
    ensures Replant(doc, [n], sub) == Obj(doc.members[n := sub])
  {
    assert [n, token][..1] == [n] && [n][1..] == [];
  }

  // ----- a list whose joined parent path is that of the root -------------------------------------

  const COLLIDING := Obj(map["x" := Num(7), "" := Arr([Num(1)])])
  const COLLIDING_TARGET := Obj(map["" := Arr([Num(7), Num(1)])])

  lemma NotAnInt()
    ensures PyInt("x").None? && PyInt("0") == Some(0)
  {
    PyIntStr(0);
  }

  /** The member x moves into the list, and then the list's own value back into it. */
  lemma CollidingList(order: Order, root: Json)
    requires Complete(order)
    ensures CompareValues(order, root, [Entry(Remove(["x"]), Num(7))], [""], Arr([Num(1)]), Arr([Num(7), Num(1)]))
            == Raised(PythonTypeError)
  {
    SmallDecs();
    NotAnInt();
    var p: Pointer := [""];
    assert p + ["0"] == ["", "0"] && p + ["1"] == ["", "1"];
    var s, t := Arr([Num(1)]), Arr([Num(7), Num(1)]);
    var rx, r0 := Entry(Remove(["x"]), Num(7)), Entry(Remove(["", "0"]), Num(1));
    var mv := Entry(Move(["x"], ["", "0"]), Num(7));
    assert [rx] + [r0] == [rx, r0];
    assert Removed([rx], p + ["0"], Num(1), root) == Ok([rx, r0]);
    assert [rx, r0][..1] == [rx];
    assert LastMatch([rx, r0], Removing, Num(7)) == Some(0);
    assert [rx, r0][..0] + [rx, r0][1..] == [r0];
    assert |["x"]| != |["", "0"]|;
    assert [r0] + [mv] == [r0, mv];
    assert Added([rx, r0], p + ["0"], true, Num(7)) == Ok([r0, mv]);
    assert CompareElement(order, root, [rx], p, 0, s, t) == Ok([r0, mv]);
    assert [r0, mv][..1] == [r0];
    assert LastMatch([r0, mv], Removing, Num(1)) == Some(0);
    assert [r0, mv][1..] == [mv];
    assert Front(["", "0"]) == [""] && Front(["x"]) == [];
    assert UndoAll(Removing, [mv], "", 0) == Raised(PythonTypeError);
    assert AddedFor([r0, mv], 0, ["", "1"], true, Num(1)) == Raised(PythonTypeError);
    assert CompareElement(order, root, [r0, mv], p, 1, s, t) == Raised(PythonTypeError);
    assert CompareLists(order, root, [r0, mv], p, 1, s, t) == Raised(PythonTypeError);
  }

  lemma CollidingKeys()
    ensures var (src, dst) := (COLLIDING.members.Keys, COLLIDING_TARGET.members.Keys);
            src - dst == {"x"} && dst - src == {} && src * dst == {""}
  {
    assert |"x"| != |""|;
    assert COLLIDING.members.Keys == {"x", ""} && COLLIDING_TARGET.members.Keys == {""};
  }

  /**
   A list under the empty name has the joined parent path of the root's members. Here the diff fails: a
   member's name is compared with an index of that list.
   */
  lemma CollidingPaths(order: Order)
    requires Complete(order)
    ensures FromDiff(order, COLLIDING, COLLIDING_TARGET) == Raised(PythonTypeError)
  {
    var src, dst := COLLIDING, COLLIDING_TARGET;
    OrderOfNone(order, []);
    OrderOfOne(order, [], "x");
    OrderOfOne(order, [], "");
    CollidingKeys();
    CollidingList(order, dst);
    var rx := Entry(Remove(["x"]), Num(7));
    assert [] + ["x"] == ["x"] && [] + [""] == [""] && [] + [rx] == [rx];
    assert ["x"][1..] == [];
    assert RemoveMembers([], [], ["x"], src.members, dst) == Ok([rx]);
    assert CompareMembers(order, dst, [rx], [], [""], src, dst) == Raised(PythonTypeError);
  }

  // ----- an operation inside an element that shifts ----------------------------------------------

  const SHIFTING := Arr([Num(1), Arr([])])
  const SHIFTED := Arr([Num(7), Arr([Num(3)]), Num(1)])

  const SHIFT_RECORD := [Entry(Remove(["0"]), Num(1)), Entry(Add(["0"], Num(7)), Num(7)),
                         Entry(Add(["1", "0"], Num(3)), Num(3))]
  const SHIFT_PATCH := [Add(["0"], Num(7)), Add(["1", "0"], Num(3)), Move(["1"], ["2"])]

  lemma MoreDecs()
    ensures Dec(2) == "2"
  {
  }

  lemma FirstExchanged(order: Order, root: Json)
    requires Complete(order)
    ensures CompareElement(order, root, [], [], 0, SHIFTING, SHIFTED) == Ok(SHIFT_RECORD[..2])
  {
    SmallDecs();
    var p: Pointer := [];
    assert p + ["0"] == ["0"];
    var one := [Entry(Remove(["0"]), Num(1))];
    assert [] + one == one;
    assert LastMatch(one, Removing, Num(7)) == None;
    assert one + [Entry(Add(["0"], Num(7)), Num(7))] == SHIFT_RECORD[..2];
  }

  lemma SecondCompared(order: Order, root: Json)
    requires Complete(order)
    ensures CompareElement(order, root, SHIFT_RECORD[..2], [], 1, SHIFTING, SHIFTED) == Ok(SHIFT_RECORD)
  {
    SmallDecs();
    var two := SHIFT_RECORD[..2];
    assert [] + ["1"] == ["1"] && ["1"] + ["0"] == ["1", "0"];
    assert two[..1][..0] == [] && two[..1] == [two[0]];
    assert LastMatch(two, Removing, Num(3)) == None;
    assert two + [Entry(Add(["1", "0"], Num(3)), Num(3))] == SHIFT_RECORD;
    var s, t := Arr([]), Arr([Num(3)]);
    assert CompareElement(order, root, two, ["1"], 0, s, t) == Ok(SHIFT_RECORD);
    assert CompareLists(order, root, SHIFT_RECORD, ["1"], 1, s, t) == Ok(SHIFT_RECORD);
  }

  /** The addition inside the second element is not renumbered when the first removal becomes a move. */
  lemma ThirdGained()
    ensures Added(SHIFT_RECORD, ["2"], true, Num(1))
            == Ok(SHIFT_RECORD[1..] + [Entry(Move(["1"], ["2"]), Num(1))])
  {
    SmallDecs();
    IntKeys();
    var es, later := SHIFT_RECORD, SHIFT_RECORD[1..];
    assert es[..2][..1] == [es[0]] && es[..2] == es[..|es| - 1];
    assert LastMatch(es[..2], Removing, Num(1)) == Some(0) by { assert es[..2][..|es[..2]| - 1] == es[..1]; }
    assert LastMatch(es, Removing, Num(1)) == Some(0);
    assert ParentPath(["0"]) == "" by { assert Front(["0"]) == []; }
    LaterUndone();
    assert es[..0] + later == later;
    assert WithKey(["0"], 1) == ["1"] by { assert Front(["0"]) == [] && [] + ["1"] == ["1"]; }
    assert ["1"] != ["2"] by { assert ["1"][0] != ["2"][0]; }
  }

  lemma UndoAllCons(kind: Kind, e: Entry, rest: seq<Entry>, path: string, key: int, op: Op, next: int)
    requires Undo(kind, e.op, path, key) == Ok((op, next)) && UndoAll(kind, rest, path, next).Ok?
    ensures UndoAll(kind, [e] + rest, path, key)
            == Ok(([Entry(op, e.item)] + UndoAll(kind, rest, path, next).value.0,
                   UndoAll(kind, rest, path, next).value.1))
  {
    assert ([e] + rest)[1..] == rest;
  }

  lemma LaterUndone()
    ensures UndoAll(Removing, SHIFT_RECORD[1..], "", 0) == Ok((SHIFT_RECORD[1..], 1))
  {
    IntKeys();
    var a, b := SHIFT_RECORD[1], SHIFT_RECORD[2];
    assert ParentPath(["1", "0"]) != "" by {
      assert Front(["1", "0"]) == ["1"];
      assert PathText(["1"]) == "1";
    }
    assert ParentPath(["0"]) == "" by { assert Front(["0"]) == []; }
    UndoAllCons(Removing, b, [], "", 1, b.op, 1);
    assert [b] + [] == [b];
    UndoAllCons(Removing, a, [b], "", 0, a.op, 1);
    assert [a] + [b] == SHIFT_RECORD[1..];
  }

  lemma IntKeys()
    ensures IntKey(["0"]) == Ok(0) && Str(1) == "1"
  {
    SmallDecs();
    PyIntStr(0);
  }

  /**
   In a list of lists the diff goes wrong: the undo methods look at the parent path alone, so an operation inside an
   element keeps its index when that element shifts. Here the patch cannot even be applied.
   */
  lemma NestedElementNotShifted(order: Order)
    requires Complete(order)
    ensures FromDiff(order, SHIFTING, SHIFTED) == Ok(SHIFT_PATCH)
    ensures Apply(SHIFTING, SHIFT_PATCH).Raised?
  {
    FirstExchanged(order, SHIFTED);
    SecondCompared(order, SHIFTED);
    ThirdGained();
    SmallDecs();
    MoreDecs();
    var all := SHIFT_RECORD[1..] + [Entry(Move(["1"], ["2"]), Num(1))];
    assert [] + ["2"] == ["2"];
    assert CompareLists(order, SHIFTED, all, [], 3, SHIFTING, SHIFTED) == Ok(all);
    assert CompareLists(order, SHIFTED, SHIFT_RECORD, [], 2, SHIFTING, SHIFTED) == Ok(all);
    assert CompareLists(order, SHIFTED, SHIFT_RECORD[..2], [], 1, SHIFTING, SHIFTED) == Ok(all);
    assert CompareValues(order, SHIFTED, [], [], SHIFTING, SHIFTED) == Ok(all);
    ShiftOps(all);
    ShiftRefused();
  }

  lemma ShiftOps(all: seq<Entry>)
    requires all == SHIFT_RECORD[1..] + [Entry(Move(["1"], ["2"]), Num(1))]
    ensures Fuse(Ops(all)) == SHIFT_PATCH
  {
    assert Ops(all) == SHIFT_PATCH;
    var ops := SHIFT_PATCH;
    assert ops[1..] == [ops[1], ops[2]] && ops[1..][1..] == [ops[2]] && [ops[2]][1..] == [];
    assert Fuse([ops[2]]) == [ops[2]] + Fuse([]);
    assert Fuse(ops[1..]) == [ops[1]] + Fuse([ops[2]]);
    assert Fuse(ops) == [ops[0]] + Fuse(ops[1..]);
  }

  lemma ShiftRefused()
    ensures Apply(SHIFTING, SHIFT_PATCH).Raised?
  {
    SmallDecs();
    IndexOfDec(0);
    IndexOfDec(1);
    var mid := Arr([Num(7), Num(1), Arr([])]);
    var items := SHIFTING.items;
    assert items[..0] + [Num(7)] + items[0..] == mid.items;
    assert Front(["0"]) == [] && Last(["0"]) == "0";
    assert ApplyAdd(SHIFTING, ["0"], Num(7)) == Ok(mid);
    assert Front(["1", "0"]) == ["1"] && ["1"][1..] == [];
    assert Resolve(mid, ["1"]) == Ok(Num(1));
    assert ApplyAdd(mid, ["1", "0"], Num(3)).Raised?;
    assert SHIFT_PATCH[1..][0] == SHIFT_PATCH[1];
  }

  // ----- members whose names look like integers --------------------------------------------------

  const NUMBERED := Obj(map["5" := Num(1), "6" := Num(2), "a" := Arr([])])
  const UNNUMBERED := Obj(map["a" := Arr([Num(1)])])
  const NUMBER_RECORD := [Entry(Remove(["5"]), Num(1)), Entry(Remove(["6"]), Num(2))]
  const NUMBER_PATCH := [Remove(["7"]), Move(["5"], ["a", "0"])]

  lemma NumberKeys()
    ensures PyInt("5") == Some(5) && PyInt("6") == Some(6) && Str(5) == "5" && Str(7) == "7"
  {
    assert Dec(5) == "5" && Dec(6) == "6" && Dec(7) == "7";
    PyIntStr(5);
    PyIntStr(6);
  }

  /** The second removal is renumbered although it is of another member of the same object. */
  lemma NumberGained()
    ensures Added(NUMBER_RECORD, ["a", "0"], true, Num(1))
            == Ok([Entry(Remove(["7"]), Num(2)), Entry(Move(["5"], ["a", "0"]), Num(1))])
  {
    NumberKeys();
    var es := NUMBER_RECORD;
    assert es[..1] == [es[0]] && es[..0] == [] && es[1..] == [es[1]];
    assert LastMatch(es[..1], Removing, Num(1)) == Some(0);
    assert LastMatch(es, Removing, Num(1)) == Some(0);
    assert Front(["5"]) == [] && Front(["6"]) == [] && [] + ["7"] == ["7"] && [] + ["5"] == ["5"];
    assert Undo(Removing, es[1].op, "", 5) == Ok((Remove(["7"]), 5));
    UndoAllCons(Removing, es[1], [], "", 5, Remove(["7"]), 5);
    assert [es[1]] + [] == [es[1]];
    var later := [Entry(Remove(["7"]), Num(2))];
    assert later + [] == later;
    assert UndoAll(Removing, es[1..], "", 5) == Ok((later, 5));
    assert ParentPath(["5"]) == "" && WithKey(["5"], 5) == ["5"];
    assert |["5"]| != |["a", "0"]|;
    var mv := Entry(Move(["5"], ["a", "0"]), Num(1));
    assert AddedFor(es, 0, ["a", "0"], true, Num(1)) == Ok(es[..0] + later + [mv]);
    assert es[..0] + later + [mv] == [later[0], mv];
  }

  lemma FirstNumberRemoved()
    ensures Removed([], ["5"], Num(1), UNNUMBERED) == Ok(NUMBER_RECORD[..1])
  {
    assert [] + [Entry(Remove(["5"]), Num(1))] == NUMBER_RECORD[..1];
  }

  lemma SecondNumberRemoved()
    ensures Removed(NUMBER_RECORD[..1], ["6"], Num(2), UNNUMBERED) == Ok(NUMBER_RECORD)
  {
    var one := NUMBER_RECORD[..1];
    assert LastMatch(one, Adding, Num(2)) == None;
    assert one + [Entry(Remove(["6"]), Num(2))] == NUMBER_RECORD;
  }

  lemma NumbersRemoved(order: Order)
    requires Complete(order)
    ensures RemoveMembers([], [], ["5", "6"], NUMBERED.members, UNNUMBERED) == Ok(NUMBER_RECORD)
  {
    FirstNumberRemoved();
    SecondNumberRemoved();
    assert [] + ["5"] == ["5"] && [] + ["6"] == ["6"];
    assert ["5", "6"][1..] == ["6"] && ["6"][1..] == [];
    assert RemoveMembers(NUMBER_RECORD[..1], [], ["6"], NUMBERED.members, UNNUMBERED) == Ok(NUMBER_RECORD);
  }

  lemma NumberedList(order: Order)
    requires Complete(order)
    ensures CompareMembers(order, UNNUMBERED, NUMBER_RECORD, [], ["a"], NUMBERED, UNNUMBERED)
            == Added(NUMBER_RECORD, ["a", "0"], true, Num(1))
  {
    SmallDecs();
    NumberGained();
    assert [] + ["a"] == ["a"] && ["a"] + ["0"] == ["a", "0"] && ["a"][1..] == [];
    var s, t := Arr([]), Arr([Num(1)]);
    var end := Added(NUMBER_RECORD, ["a", "0"], true, Num(1)).value;
    assert CompareElement(order, UNNUMBERED, NUMBER_RECORD, ["a"], 0, s, t) == Ok(end);
    assert CompareLists(order, UNNUMBERED, end, ["a"], 1, s, t) == Ok(end);
    assert CompareValues(order, UNNUMBERED, NUMBER_RECORD, ["a"], s, t) == Ok(end);
  }

  lemma NumberSets()
    ensures var (src, dst) := (NUMBERED.members.Keys, UNNUMBERED.members.Keys);
            src - dst == {"5", "6"} && dst - src == {} && src * dst == {"a"}
  {
    assert "5"[0] != "6"[0] && "5"[0] != "a"[0] && "6"[0] != "a"[0];
    assert NUMBERED.members.Keys == {"5", "6", "a"} && UNNUMBERED.members.Keys == {"a"};
  }

  /**
   A removed member whose name looks like an integer is taken for a list position when a list gains its value, so the
   names of the members removed after it are counted up. Here the patch removes a member that is not there.
   */
  lemma IntegerNames(order: Order)
    requires Complete(order) && order([], {"5", "6"}) == ["5", "6"]
    ensures FromDiff(order, NUMBERED, UNNUMBERED) == Ok(NUMBER_PATCH)
    ensures Apply(NUMBERED, NUMBER_PATCH).Raised?
  {
    NumberSets();
    OrderOfNone(order, []);
    OrderOfOne(order, [], "a");
    NumbersRemoved(order);
    NumberedList(order);
    NumberGained();
    var all := [Entry(Remove(["7"]), Num(2)), Entry(Move(["5"], ["a", "0"]), Num(1))];
    assert CompareValues(order, UNNUMBERED, [], [], NUMBERED, UNNUMBERED) == Ok(all);
    assert Ops(all) == NUMBER_PATCH;
    NumbersFused();
    NumbersRefused();
  }

  lemma NumbersFused()
    ensures Fuse(NUMBER_PATCH) == NUMBER_PATCH
  {
    assert NUMBER_PATCH[1..] == [NUMBER_PATCH[1]] && [NUMBER_PATCH[1]][1..] == [];
    assert Fuse([NUMBER_PATCH[1]]) == [NUMBER_PATCH[1]] + Fuse([]);
    assert Fuse(NUMBER_PATCH) == [NUMBER_PATCH[0]] + Fuse([NUMBER_PATCH[1]]);
  }

  lemma NumbersRefused()
    ensures Apply(NUMBERED, NUMBER_PATCH).Raised?
  {
    assert Front(["7"]) == [] && Last(["7"]) == "7";
    assert "7" !in NUMBERED.members;
  }

  // ----- the other conditions ---------------------------------------------------------------------

  /** The condition on the starts of moves. */
  ghost predicate StartsFit(order: Order, src: Json, dst: Json)
    requires Complete(order)
  {
    ValuesTimely(order, PlacesOf(src, dst), [], [], src, dst)
  }

  lemma DisjointFits(order: Order, src: Json, dst: Json)
    requires Complete(order)
    requires MembersGained(src, dst) !! ListTaken(src, dst) && ListGained(src, dst) !! KeyedLost(src, dst)
    ensures StartsFit(order, src, dst)
  {
    DisjointValues(order, PlacesOf(src, dst), [], [], src, dst);
  }

  lemma OneListOneMember(src: Json, dst: Json, c: Pointer, q: Pointer)
    requires ListHoles([], src, dst) == {c} && (forall h :: h in MemberHoles([], src, dst) ==> h != [] && Front(h) == q)
    requires PathText(q) != PathText(c)
    ensures Separable(src, dst)
  {
  }

  lemma GainedBox()
    ensures var (s, t) := (Obj(map[]), Obj(map["k" := Num(1)]));
            && Aligned(s, t) && ListHoles(["b"], s, t) == {} && ReplacedHoles(["b"], s, t) == {}
            && (forall h :: h in MemberHoles(["b"], s, t) ==> h == ["b", "k"])
  {
    var t := Obj(map["k" := Num(1)]);
    assert t.members.Keys == {"k"};
    assert ["b"] + ["k"] == ["b", "k"];
  }

  lemma GainedLists()
    ensures ListHoles([], LIST_LOSES, OBJECT_GAINS) == {["a"]}
  {
    var (src, dst) := (LIST_LOSES, OBJECT_GAINS);
    GainedBox();
    assert src.members.Keys == {"a", "b"} == dst.members.Keys;
    assert [] + ["a"] == ["a"] && [] + ["b"] == ["b"];
    assert ListHoles(["a"], src.members["a"], dst.members["a"]) == {["a"]};
    assert ListHoles(["b"], src.members["b"], dst.members["b"]) == {};
    assert ["a"] in ListHoles([], src, dst);
  }

  lemma GainedMemberHoles()
    ensures forall h :: h in MemberHoles([], LIST_LOSES, OBJECT_GAINS) ==> h == ["b", "k"]
  {
    var (src, dst) := (LIST_LOSES, OBJECT_GAINS);
    GainedBox();
    assert src.members.Keys == {"a", "b"} == dst.members.Keys;
    assert [] + ["a"] == ["a"] && [] + ["b"] == ["b"];
    assert MemberHoles(["a"], src.members["a"], dst.members["a"]) == {};
  }

  lemma GainedAligned()
    ensures Aligned(LIST_LOSES, OBJECT_GAINS) && ReplacedHoles([], LIST_LOSES, OBJECT_GAINS) == {}
  {
    var (src, dst) := (LIST_LOSES, OBJECT_GAINS);
    GainedBox();
    assert src.members.Keys == {"a", "b"} == dst.members.Keys;
    assert [] + ["a"] == ["a"] && [] + ["b"] == ["b"];
    assert ReplacedHoles(["a"], src.members["a"], dst.members["a"]) == {};
  }

  /** Where a member gains a list's value only the starts of moves do not fit. */
  lemma GainedOthers(order: Order)
    requires Complete(order) && order([], {"a", "b"}) == ["a", "b"]
    ensures var (src, dst) := (LIST_LOSES, OBJECT_GAINS);
            && Aligned(src, dst) && Separable(src, dst) && NoDash(ReplacedHoles([], src, dst))
            && !StartsFit(order, src, dst)
  {
    GainedLists();
    GainedMemberHoles();
    GainedAligned();
    assert Front(["b", "k"]) == ["b"];
    assert PathText(["b"])[0] != PathText(["a"])[0];
    OneListOneMember(LIST_LOSES, OBJECT_GAINS, ["a"], ["b"]);
    ListValueGainedAsMember(order);
    if StartsFit(order, LIST_LOSES, OBJECT_GAINS) {
      DiffRoundTrip(order, LIST_LOSES, OBJECT_GAINS);
    }
  }

  lemma NumberHoles()
    ensures var (src, dst) := (NUMBERED, UNNUMBERED);
            && Aligned(src, dst) && ReplacedHoles([], src, dst) == {}
            && ListHoles([], src, dst) == {["a"]}
            && (forall h :: h in MemberHoles([], src, dst) ==> h != [] && Front(h) == [])
  {
    var (src, dst) := (NUMBERED, UNNUMBERED);
    NumberSets();
    assert [] + ["a"] == ["a"];
    assert forall n :: n in src.members && n in dst.members ==> n == "a";
    assert ListHoles(["a"], src.members["a"], dst.members["a"]) == {["a"]};
    assert MemberHoles(["a"], src.members["a"], dst.members["a"]) == {};
    assert ["a"] in ListHoles([], src, dst);
    forall n: string ensures Front([] + [n]) == [] {
    }
  }

  lemma NumberOthers(order: Order)
    requires Complete(order) && order([], {"5", "6"}) == ["5", "6"]
    ensures var (src, dst) := (NUMBERED, UNNUMBERED);
            && Aligned(src, dst) && Separable(src, dst) && NoDash(ReplacedHoles([], src, dst))
            && !StartsFit(order, src, dst)
  {
    NumberHoles();
    assert |PathText(["a"])| == 1 && |PathText([])| == 0;
    OneListOneMember(NUMBERED, UNNUMBERED, ["a"], []);
    IntegerNames(order);
    if StartsFit(order, NUMBERED, UNNUMBERED) {
      DiffRoundTrip(order, NUMBERED, UNNUMBERED);
    }
  }

  /** In the list of lists everything but the alignment holds. */
  lemma ShiftOthers(order: Order)
    requires Complete(order)
    ensures var (src, dst) := (SHIFTING, SHIFTED);
            && !Aligned(src, dst) && Separable(src, dst) && NoDash(ReplacedHoles([], src, dst))
            && StartsFit(order, src, dst)
  {
    assert SHIFTING.items[1] == Arr([]) && SHIFTED.items[1] == Arr([Num(3)]);
    assert ListHoles([], SHIFTING, SHIFTED) == {[]} && MemberHoles([], SHIFTING, SHIFTED) == {};
    DisjointFits(order, SHIFTING, SHIFTED);
  }

  /** Under the empty name everything but the paths holds. */
  lemma CollidingOthers(order: Order)
    requires Complete(order)
    ensures var (src, dst) := (COLLIDING, COLLIDING_TARGET);
            && Aligned(src, dst) && !Separable(src, dst) && NoDash(ReplacedHoles([], src, dst))
            && StartsFit(order, src, dst)
  {
    var (src, dst) := (COLLIDING, COLLIDING_TARGET);
    CollidingHoles();
    CollidingAligned();
    CollidingFits();
    DisjointFits(order, src, dst);
    assert Front(["x"]) == [] && PathText([""]) == "" == PathText([]);
    assert PathText(Front(["x"])) == PathText([""]);
  }

  lemma CollidingHoles()
    ensures [""] in ListHoles([], COLLIDING, COLLIDING_TARGET) && ["x"] in MemberHoles([], COLLIDING, COLLIDING_TARGET)
  {
    var (src, dst) := (COLLIDING, COLLIDING_TARGET);
    CollidingKeys();
    assert [] + [""] == [""] && [] + ["x"] == ["x"];
    assert "" in src.members && "" in dst.members && "x" in src.members.Keys && "x" !in dst.members.Keys;
    assert [""] in ListHoles([""], src.members[""], dst.members[""]);
  }

  lemma CollidingAligned()
    ensures Aligned(COLLIDING, COLLIDING_TARGET) && ReplacedHoles([], COLLIDING, COLLIDING_TARGET) == {}
  {
    var (src, dst) := (COLLIDING, COLLIDING_TARGET);
    CollidingKeys();
    assert forall n :: n in src.members && n in dst.members ==> n == "";
    assert ReplacedHoles([] + [""], src.members[""], dst.members[""]) == {};
  }

  lemma CollidingFits()
    ensures MembersGained(COLLIDING, COLLIDING_TARGET) == {} && KeyedLost(COLLIDING, COLLIDING_TARGET) == {}
  {
    var (src, dst) := (COLLIDING, COLLIDING_TARGET);
    CollidingKeys();
    NotAnInt();
    assert forall n :: n in src.members && n in dst.members ==> n == "";
    assert MembersGained(src.members[""], dst.members[""]) == {} == KeyedLost(src.members[""], dst.members[""]);
  }

  // ----- a value that a list loses and an object gains, with nothing recorded on the list after it -----

  const FILLED := Obj(map["a" := Arr([Num(1)]), "b" := Obj(map[])])
  const EMPTIED := Obj(map["a" := Arr([]), "b" := Obj(map["k" := Num(1)])])

  /** The additions fit if the only removal recorded is the last operation, or none is. */
  lemma OnlyRemoval(d: Places, es: seq<Entry>, v: Json)
    requires es == [] || (|es| == 1 && es[0].op.ptr != [])
    ensures Timely(d, es, false, v)
  {
    if LastMatch(es, Removing, v).Some? { assert es[1..] == []; }
  }

  lemma EmptiedList(order: Order, d: Places, es: seq<Entry>)
    requires Complete(order)
    ensures ValuesTimely(order, d, es, ["a"], Arr([Num(1)]), Arr([]))
    ensures es == [] ==> CompareValues(order, d.dst, es, ["a"], Arr([Num(1)]), Arr([])) ==
                         Ok([Entry(Remove(["a", "0"]), Num(1))])
  {
    SmallDecs();
    var (s, t) := (Arr([Num(1)]), Arr([]));
    assert ["a"] + ["0"] == ["a", "0"];
    var next := CompareElement(order, d.dst, es, ["a"], 0, s, t);
    assert next == Removed(es, ["a", "0"], Num(1), d.dst);
    if next.Ok? {
      assert ListsTimely(order, d, next.value, ["a"], 1, s, t);
      assert CompareLists(order, d.dst, next.value, ["a"], 1, s, t) == next;
    }
    if es == [] { assert [] + [Entry(Remove(["a", "0"]), Num(1))] == [Entry(Remove(["a", "0"]), Num(1))]; }
  }

  lemma FilledObject(order: Order, d: Places, es: seq<Entry>)
    requires Complete(order) && (es == [] || (|es| == 1 && es[0].op.ptr != []))
    ensures ValuesTimely(order, d, es, ["b"], Obj(map[]), Obj(map["k" := Num(1)]))
  {
    var (s, t) := (Obj(map[]), Obj(map["k" := Num(1)]));
    OrderOfNone(order, ["b"]);
    OrderOfOne(order, ["b"], "k");
    assert s.members.Keys - t.members.Keys == {} && t.members.Keys - s.members.Keys == {"k"};
    assert s.members.Keys * t.members.Keys == {};
    OnlyRemoval(d, es, Num(1));
    var added := Added(es, ["b"] + ["k"], false, Num(1));
    if added.Ok? {
      assert AddsTimely(d, added.value, ["b"], ["k"][1..], t.members);
      assert MembersTimely(order, d, added.value, ["b"], [], s, t);
    }
  }

  /** The starts of moves fit in every order, although the list loses what the object gains. */
  lemma LastElementGained(order: Order)
    requires Complete(order)
    ensures StartsFit(order, FILLED, EMPTIED)
    ensures Num(1) in ListTaken(FILLED, EMPTIED) && Num(1) in MembersGained(FILLED, EMPTIED)
  {
    var (src, dst, d) := (FILLED, EMPTIED, PlacesOf(FILLED, EMPTIED));
    assert src.members.Keys == {"a", "b"} == dst.members.Keys;
    assert src.members.Keys - dst.members.Keys == {} == dst.members.Keys - src.members.Keys;
    OrderOfNone(order, []);
    assert src.members.Keys * dst.members.Keys == {"a", "b"};
    EmptiedThenFilled(order, d, order([], {"a", "b"}));
    assert RemoveMembers([], [], [], src.members, dst) == Ok([]) == AddMembers([], [], [], dst.members);
    assert DictsTimely(order, d, [], [], src, dst);
    var (s, t) := (src.members["a"], dst.members["a"]);
    assert !SameAt(s, t, 0) && s.items[0] == Num(1);
    assert Num(1) in ListTaken(s, t);
    assert dst.members["b"].members["k"] == Num(1);
    assert Num(1) in MembersGained(src.members["b"], dst.members["b"]);
  }

  lemma TwoNames(order: Order)
    requires Complete(order)
    ensures order([], {"a", "b"}) == ["a", "b"] || order([], {"a", "b"}) == ["b", "a"]
  {
    var s := order([], {"a", "b"});
    assert "a" != "b" by { assert "a"[0] != "b"[0]; }
    ListsLength(s, {"a", "b"});
    assert s[0] in s && s[1] in s;
  }

  lemma EmptiedThenFilled(order: Order, d: Places, names: seq<string>)
    requires Complete(order) && d.dst == EMPTIED && names == order([], {"a", "b"})
    ensures MembersTimely(order, d, [], [], names, FILLED, EMPTIED)
  {
    TwoNames(order);
    EmptiedList(order, d, []);
    FilledObject(order, d, []);
    assert [] + ["a"] == ["a"] && [] + ["b"] == ["b"];
    assert ["a", "b"][1..] == ["b"] && ["b", "a"][1..] == ["a"] && ["a"][1..] == [] == ["b"][1..];
    if names == ["a", "b"] {
      var one := [Entry(Remove(["a", "0"]), Num(1))];
      FilledObject(order, d, one);
      assert MembersTimely(order, d, one, [], ["b"], FILLED, EMPTIED);
    } else {
      var next := CompareValues(order, d.dst, [], ["b"], Obj(map[]), Obj(map["k" := Num(1)]));
      if next.Ok? {
        EmptiedList(order, d, next.value);
        assert MembersTimely(order, d, next.value, [], ["a"], FILLED, EMPTIED);
      }
    }
  }
}
