/**
 The builder itself: a circular doubly linked list of recorded operations that are renumbered in place, and
 the index stores that find the latest operation for a value. It records what the specification says.
 */
module DiffBuilder {
  import opened Collections
  import opened Outcomes
  import opened Text
  import opened Pointers
  import opened Documents
  import opened Patches
  import opened Rewriting
  import opened Diffs
  import opened Stores
  import opened Indexes
  import opened Pairing

  /** A list cell [prev, next, op]; the item is what the operation removes, adds, moves or writes. */
  class Link {
    var prev: Link?
    var next: Link?
    var op: Op
    ghost const item: Json

    constructor (op: Op, ghost item: Json)
      ensures this.op == op && this.item == item
    {
      this.op := op;
      this.item := item;
      prev := null;
      next := null;
    }
  }

  /** Positions in index_storage and index_storage2. */
  function St(kind: Kind): nat {
    if kind == Adding then 0 else 1
  }

  function Lookup(store: map<Json, seq<Link>>, v: Json): seq<Link> {
    if v in store then store[v] else []
  }

  lemma DistinctCut<T>(s: seq<T>, i: nat)
    requires Distinct(s) && i < |s|
    ensures Distinct(Cut(s, i)) && s[i] !in Cut(s, i)
    ensures forall x :: x in Cut(s, i) ==> x in s
  {
  }

  ghost predicate IndexedBy(hashed: seq<map<Json, seq<Link>>>, listed: seq<seq<(Json, Link)>>, nodes: seq<Link>,
                            es: seq<Entry>)
    requires |nodes| == |es|
  {
    && |hashed| == 2 && |listed| == 2
    && (forall kind, v: Json :: v.Num? ==> Lookup(hashed[St(kind)], v) == Pick(nodes, es, kind, v))
    && (forall kind :: listed[St(kind)] == PickListed(nodes, es, kind))
  }

  lemma StoredHashed(hashed: seq<map<Json, seq<Link>>>, listed: seq<seq<(Json, Link)>>, nodes: seq<Link>,
                     es: seq<Entry>,
                     node: Link, e: Entry, kind: Kind)
    requires |nodes| == |es| && IndexedBy(hashed, listed, nodes, es) && OfKind(e, kind) && e.item.Num?
    ensures IndexedBy(hashed[St(kind) := hashed[St(kind)][e.item := Lookup(hashed[St(kind)], e.item) + [node]]], listed,
                      nodes + [node], es + [e])
  {
    StoredPicks(nodes, es, node, e, kind);
  }

  lemma StoredListed(hashed: seq<map<Json, seq<Link>>>, listed: seq<seq<(Json, Link)>>, nodes: seq<Link>,
                     es: seq<Entry>,
                     node: Link, e: Entry, kind: Kind)
    requires |nodes| == |es| && IndexedBy(hashed, listed, nodes, es) && OfKind(e, kind) && !e.item.Num?
    ensures IndexedBy(hashed, listed[St(kind) := listed[St(kind)] + [(e.item, node)]], nodes + [node], es + [e])
  {
    StoredPicks(nodes, es, node, e, kind);
  }

  lemma StoredPicks(nodes: seq<Link>, es: seq<Entry>, node: Link, e: Entry, kind: Kind)
    requires |nodes| == |es| && OfKind(e, kind)
    ensures forall k, v: Json ::
              Pick(nodes + [node], es + [e], k, v) ==
                Pick(nodes, es, k, v) + (if k == kind && v == e.item then [node] else [])
    ensures forall k :: PickListed(nodes + [node], es + [e], k)
                        == PickListed(nodes, es, k) + (if k == kind && !e.item.Num? then [(e.item, node)] else [])
  {
    forall k, v: Json
      ensures Pick(nodes + [node], es + [e], k, v) ==
                Pick(nodes, es, k, v) + (if k == kind && v == e.item then [node] else [])
      ensures PickListed(nodes + [node], es + [e], k)
              == PickListed(nodes, es, k) + (if k == kind && !e.item.Num? then [(e.item, node)] else [])
    {
      PickAppend(nodes, es, k, v, node, e);
    }
  }

  /** Without the last entry of a kind for a value, what is stored for the others is the same. */
  lemma OthersCut(nodes: seq<Link>, es: seq<Entry>, kind: Kind, v: Json, i: nat)
    requires |nodes| == |es| && LastMatch(es, kind, v) == Some(i)
    ensures forall k, w: Json :: k != kind || w != v ==> Pick(Cut(nodes, i), Cut(es, i), k, w) == Pick(nodes, es, k, w)
    ensures forall k :: k != kind || v.Num? ==> PickListed(Cut(nodes, i), Cut(es, i), k) == PickListed(nodes, es, k)
  {
    forall k, w: Json
      ensures k != kind || w != v ==> Pick(Cut(nodes, i), Cut(es, i), k, w) == Pick(nodes, es, k, w)
    {
      PickCut(nodes, es, k, w, i);
    }
    forall k
      ensures k != kind || v.Num? ==> PickListed(Cut(nodes, i), Cut(es, i), k) == PickListed(nodes, es, k)
    {
      if k != kind || v.Num? {
        ListedCut(nodes, es, k, i);
      }
    }
  }

  lemma HashedTaken(hashed: seq<map<Json, seq<Link>>>, listed: seq<seq<(Json, Link)>>, nodes: seq<Link>, es: seq<Entry>,
                    kind: Kind, v: Json, i: nat)
    requires |nodes| == |es| && IndexedBy(hashed, listed, nodes, es) && LastMatch(es, kind, v) == Some(i) && v.Num?
    ensures var stored := Lookup(hashed[St(kind)], v);
            && stored != [] && stored[|stored| - 1] == nodes[i]
            && IndexedBy(hashed[St(kind) := hashed[St(kind)][v := stored[..|stored| - 1]]], listed, Cut(nodes, i),
                         Cut(es, i))
  {
    OthersCut(nodes, es, kind, v, i);
    PickCut(nodes, es, kind, v, i);
  }

  lemma ListedTaken(hashed: seq<map<Json, seq<Link>>>, listed: seq<seq<(Json, Link)>>, nodes: seq<Link>, es: seq<Entry>,
                    kind: Kind, v: Json, i: nat)
    requires |nodes| == |es| && IndexedBy(hashed, listed, nodes, es) && LastMatch(es, kind, v) == Some(i) && !v.Num?
    ensures var pairs := listed[St(kind)];
            && LastPair(pairs, v).Some? && pairs[LastPair(pairs, v).value].1 == nodes[i]
            && IndexedBy(hashed, listed[St(kind) := Cut(pairs, LastPair(pairs, v).value)], Cut(nodes, i), Cut(es, i))
  {
    OthersCut(nodes, es, kind, v, i);
    PickCut(nodes, es, kind, v, i);
    ListedLast(nodes, es, kind, v);
  }

  /** The same items and kinds of operation. */
  ghost predicate SameKinds(es: seq<Entry>, es': seq<Entry>) {
    && |es| == |es'|
    && forall i :: 0 <= i < |es| ==>
         && es'[i].item == es[i].item
         && (es'[i].op.Add? <==> es[i].op.Add?) && (es'[i].op.Remove? <==> es[i].op.Remove?)
  }

  lemma KindsIndexed(hashed: seq<map<Json, seq<Link>>>, listed: seq<seq<(Json, Link)>>, nodes: seq<Link>,
                     es: seq<Entry>, es': seq<Entry>)
    requires |nodes| == |es| && IndexedBy(hashed, listed, nodes, es) && SameKinds(es, es')
    ensures IndexedBy(hashed, listed, nodes, es')
  {
    forall kind, v: Json
      ensures Pick(nodes, es', kind, v) == Pick(nodes, es, kind, v)
    {
      PickSame(nodes, es, es', kind, v);
    }
    forall kind
      ensures PickListed(nodes, es', kind) == PickListed(nodes, es, kind)
    {
      PickSame(nodes, es, es', kind, Num(0));
    }
  }

  /** An operation that is neither an addition nor a removal is not stored. */
  lemma MoveIndexed(hashed: seq<map<Json, seq<Link>>>, listed: seq<seq<(Json, Link)>>, nodes: seq<Link>,
                    es: seq<Entry>, node: Link, e: Entry)
    requires |nodes| == |es| && IndexedBy(hashed, listed, nodes, es) && !e.op.Add? && !e.op.Remove?
    ensures IndexedBy(hashed, listed, nodes + [node], es + [e])
  {
    forall kind, v: Json
      ensures Pick(nodes + [node], es + [e], kind, v) == Pick(nodes, es, kind, v)
      ensures PickListed(nodes + [node], es + [e], kind) == PickListed(nodes, es, kind)
    {
      PickAppend(nodes, es, kind, v, node, e);
    }
  }

  class Builder {
    const root: Link
    const dst: Json
    const order: Order
    var hashed: seq<map<Json, seq<Link>>>
    var listed: seq<seq<(Json, Link)>>
    ghost var Nodes: seq<Link>
    ghost var Repr: set<object>

    /** The ring: the root, then the nodes in order, and back to the root. */
    ghost predicate Linked()
      reads this`Nodes, root`prev, root`next, Nodes`prev, Nodes`next
    {
      && root !in Nodes && Distinct(Nodes)
      && (Nodes == [] ==> root.next == root && root.prev == root)
      && (Nodes != [] ==>
            && root.next == Nodes[0] && Nodes[0].prev == root
            && root.prev == Nodes[|Nodes| - 1] && Nodes[|Nodes| - 1].next == root
            && (forall i {:trigger Nodes[i].prev} :: 1 <= i < |Nodes| ==> Nodes[i].prev == Nodes[i - 1])
            && (forall i {:trigger Nodes[i].next} :: 0 <= i < |Nodes| - 1 ==> Nodes[i].next == Nodes[i + 1]))
    }

    /** Everything the builder may change. */
    ghost predicate Owned()
      reads this`Nodes, this`Repr
    {
      this in Repr && root in Repr && forall i :: 0 <= i < |Nodes| ==> Nodes[i] in Repr
    }

    /** The recorded operations in order. */
    ghost function Entries(): (es: seq<Entry>)
      reads this`Nodes, Nodes
      ensures |es| == |Nodes|
      ensures forall i :: 0 <= i < |Nodes| ==> es[i] == Entry(Nodes[i].op, Nodes[i].item)
    {
      var ns := Nodes;
      seq(|ns|, i requires 0 <= i < |ns| reads ns => Entry(ns[i].op, ns[i].item))
    }

    /** The stores index exactly these nodes and entries. */
    ghost predicate Indexed(nodes: seq<Link>, es: seq<Entry>)
      requires |nodes| == |es|
      reads this`hashed, this`listed
    {
      IndexedBy(hashed, listed, nodes, es)
    }

    ghost predicate Valid()
      reads this`Nodes, this`hashed, this`listed, root, Nodes
    {
      Linked() && Indexed(Nodes, Entries())
    }

    /** The outcome of recording: the entries the specification gives, or its error. */
    ghost predicate Recorded(spec: Outcome<seq<Entry>>, r: Outcome<()>)
      reads this`Nodes, this`hashed, this`listed, root, Nodes
    {
      match spec
      case Raised(e) => r == Raised(e)
      case Ok(es) => r.Ok? && Valid() && Entries() == es
    }

    constructor (dst: Json, order: Order)
      ensures Valid() && Owned() && Entries() == [] && fresh(Repr)
      ensures this.dst == dst && this.order == order
    {
      var r := new Link(Remove([]), Num(0));
      r.prev := r;
      r.next := r;
      root := r;
      hashed := [map[], map[]];
      listed := [[], []];
      Nodes := [];
      Repr := {this, r};
      this.dst := dst;
      this.order := order;
    }

    /** Appends an operation before the root. */
    method Insert(op: Op, ghost item: Json) returns (node: Link)
      requires Linked()
      modifies this`Nodes, root, Nodes
      ensures Linked() && fresh(node) && Nodes == old(Nodes) + [node]
      ensures Entries() == old(Entries()) + [Entry(op, item)]
    {
      var last := root.prev;
      node := new Link(op, item);
      node.prev := last;
      node.next := root;
      last.next := node;
      root.prev := node;
      Nodes := Nodes + [node];
    }

    /** Takes a link out of the ring and clears it. */
    method Unlink(node: Link, ghost i: nat)
      requires Linked() && i < |Nodes| && Nodes[i] == node
      modifies this`Nodes, root`prev, root`next, Nodes`prev, Nodes`next
      ensures Linked() && Nodes == Cut(old(Nodes), i)
      ensures Entries() == Cut(old(Entries()), i)
    {
      ghost var nodes, es := Nodes, Entries();
      Bypass(node, i);
      assert Entries() == es;
      Nodes := Cut(nodes, i);
      RingCut(nodes, i);
      EntriesCut(nodes, es, i);
    }

    /** The entries of the nodes without one are the entries without that one. */
    lemma EntriesCut(nodes: seq<Link>, es: seq<Entry>, i: nat)
      requires i < |nodes| == |es| && Nodes == Cut(nodes, i)
      requires forall k :: 0 <= k < |nodes| ==> es[k] == Entry(nodes[k].op, nodes[k].item)
      ensures Entries() == Cut(es, i)
    {
      CutAt(nodes, i);
    }

    /** The node at a place, and the root before the first and behind the last. */
    ghost function At(nodes: seq<Link>, k: int): Link {
      if 0 <= k < |nodes| then nodes[k] else root
    }

    /** The links lead around the ring, but past the node at i. */
    ghost predicate Bypassed(nodes: seq<Link>, i: nat)
      reads root, nodes
      requires i < |nodes|
    {
      && root.next == At(nodes, if i == 0 then 1 else 0)
      && root.prev == At(nodes, if i == |nodes| - 1 then i - 1 else |nodes| - 1)
      && (forall k {:trigger nodes[k].next} :: 0 <= k < |nodes| && k != i ==>
            nodes[k].next == At(nodes, if k == i - 1 then k + 2 else k + 1))
      && (forall k {:trigger nodes[k].prev} :: 0 <= k < |nodes| && k != i ==>
            nodes[k].prev == At(nodes, if k == i + 1 then k - 2 else k - 1))
    }

    /** The neighbours of a node are linked with each other, and the node is cleared. */
    method Bypass(node: Link, ghost i: nat)
      requires Linked() && i < |Nodes| && Nodes[i] == node
      modifies root`prev, root`next, Nodes`prev, Nodes`next
      ensures Bypassed(Nodes, i)
    {
      var p, n := node.prev, node.next;
      assert p == At(Nodes, i - 1) && n == At(Nodes, i + 1);
      assert forall k {:trigger Nodes[k]} :: 0 <= k < |Nodes| ==>
                                               (Nodes[k] == p <==> k == i - 1) && (Nodes[k] == n <==> k == i + 1);
      p.next := n;
      n.prev := p;
      node.prev := null;
      node.next := null;
    }

    lemma RingCut(nodes: seq<Link>, i: nat)
      requires i < |nodes| && Nodes == Cut(nodes, i) && Distinct(nodes) && root !in nodes && Bypassed(nodes, i)
      ensures Linked()
    {
      DistinctCut(nodes, i);
      CutAt(nodes, i);
    }

    lemma CutAt(nodes: seq<Link>, i: nat)
      requires i < |nodes|
      ensures |Cut(nodes, i)| == |nodes| - 1
      ensures forall k :: 0 <= k < |nodes| - 1 ==> Cut(nodes, i)[k] == if k < i then nodes[k] else nodes[k + 1]
    {
    }

    /** store_index. */
    method StoreIndex(v: Json, node: Link, kind: Kind, ghost nodes: seq<Link>, ghost es: seq<Entry>, ghost e: Entry)
      requires |nodes| == |es| && Indexed(nodes, es)
      requires e.item == v && OfKind(e, kind)
      modifies this`hashed, this`listed
      ensures Indexed(nodes + [node], es + [e])
    {
      var st := St(kind);
      if v.Num? {
        StoredHashed(hashed, listed, nodes, es, node, e, kind);
        if v !in hashed[st] {
          assert [node] == Lookup(hashed[st], v) + [node];
          hashed := hashed[st := hashed[st][v := [node]]];
        } else {
          hashed := hashed[st := hashed[st][v := hashed[st][v] + [node]]];
        }
      } else {
        StoredListed(hashed, listed, nodes, es, node, e, kind);
        listed := listed[st := listed[st] + [(v, node)]];
      }
    }

    /** take_index: the latest node of that kind for that value, no longer stored. */
    method TakeIndex(v: Json, kind: Kind, ghost nodes: seq<Link>, ghost es: seq<Entry>) returns (node: Link?)
      requires |nodes| == |es| && Indexed(nodes, es)
      modifies this`hashed, this`listed
      ensures LastMatch(es, kind, v).None? ==> node == null && Indexed(nodes, es)
      ensures LastMatch(es, kind, v).Some? ==>
                var i := LastMatch(es, kind, v).value;
                node == nodes[i] && Indexed(Cut(nodes, i), Cut(es, i))
    {
      var st := St(kind);
      node := null;
      ghost var found := LastMatch(es, kind, v);
      if found.Some? {
        if v.Num? { HashedTaken(hashed, listed, nodes, es, kind, v, found.value); }
        else { ListedTaken(hashed, listed, nodes, es, kind, v, found.value); }
      }
      if v.Num? {
        PickNone(nodes, es, kind, v);
        if v in hashed[st] && hashed[st][v] != [] {
          var stored := hashed[st][v];
          node := stored[|stored| - 1];
          hashed := hashed[st := hashed[st][v := stored[..|stored| - 1]]];
        }
      } else {
        ListedLast(nodes, es, kind, v);
        node := TakeListed(v, st);
      }
    }

    /** The search from the end among the values that cannot be hashed. */
    method TakeListed(v: Json, st: nat) returns (node: Link?)
      requires st < |listed|
      modifies this`listed
      ensures LastPair(old(listed)[st], v).None? ==> node == null && listed == old(listed)
      ensures LastPair(old(listed)[st], v).Some? ==>
                var k := LastPair(old(listed)[st], v).value;
                && node == old(listed)[st][k].1
                && listed == old(listed)[st := Cut(old(listed)[st], k)]
    {
      var storage := listed[st];
      var k := |storage|;
      while k > 0
        invariant 0 <= k <= |storage| && listed == old(listed)
        invariant forall j :: k <= j < |storage| ==> storage[j].0 != v
      {
        k := k - 1;
        if storage[k].0 == v {
          listed := listed[st := storage[..k] + storage[k + 1..]];
          return storage[k].1;
        }
      }
      return null;
    }

    lemma NextOf(k: nat)
      requires Linked() && k < |Nodes|
      ensures Nodes[k].next == if k + 1 < |Nodes| then Nodes[k + 1] else root
    {
    }

    /** One step of the loop over the operations after node: curr is renumbered, and node's key set. */
    method RenumberOne(kind: Kind, node: Link, curr: Link, ghost i: nat, ghost k: nat) returns (r: Outcome<()>)
      requires Linked() && i < k < |Nodes| && Nodes[i] == node && Nodes[k] == curr
      requires node.op.ptr != [] && IntKey(node.op.ptr).Ok?
      modifies node`op, curr`op
      ensures Linked()
      ensures match Undo(kind, old(curr.op), old(ParentPath(node.op.ptr)), old(IntKey(node.op.ptr).value))
              case Raised(e) => r == Raised(e) && node.op == old(node.op)
              case Ok((op, key)) =>
                && r.Ok?
                && node.op.ptr == WithKey(old(node.op.ptr), key)
                && Entries() == Stepped(old(Entries()), i, k, WithKey(old(node.op.ptr), key), op)
    {
      var u := Undo(kind, curr.op, ParentPath(node.op.ptr), IntKey(node.op.ptr).value);
      if u.Raised? {
        return Raised(u.error);
      }
      var (op, key) := u.value;
      curr.op := op;
      node.op := node.op.(ptr := WithKey(node.op.ptr, key));
      return Ok(());
    }

    /**
     The state of the loop over the operations after node, with curr at place k. Where the methods compare it with true,
     they hand it on as one fact instead of proving it piece by piece.
     */
    ghost predicate AtStep(kind: Kind, node: Link, curr: Link?, E0: seq<Entry>, i: nat, k: nat, done: seq<Entry>,
                           key: int)
      reads this`Nodes, root, Nodes
    {
      && Linked() && i < k <= |Nodes| == |E0| && Nodes[i] == node
      && curr == (if k < |Nodes| then Nodes[k] else root)
      && node.op.ptr != [] && Undoing(kind, E0, i, k, done, key, Entries(), node.op.ptr)
    }

    method RenumberNext(kind: Kind, node: Link, curr: Link, ghost E0: seq<Entry>, ghost i: nat, ghost k: nat,
                        ghost done: seq<Entry>, ghost key: int)
      returns (r: Outcome<Link>, ghost done': seq<Entry>, ghost key': int)
      requires AtStep(kind, node, curr, E0, i, k, done, key) == true && curr != root
      modifies node`op, curr`op
      ensures Linked()
      ensures r.Raised? ==> Fails(kind, E0, i, r.error)
      ensures r.Ok? ==> AtStep(kind, node, r.value, E0, i, k + 1, done', key')
    {
      StepUndo(kind, E0, i, k, done, key, Entries(), node.op.ptr);
      var one := RenumberOne(kind, node, curr, i, k);
      if one.Raised? {
        return Raised(one.error), [], 0;
      }
      key' := Undo(kind, E0[k].op, ParentPath(E0[i].op.ptr), key).value.1;
      done' := done + [Entries()[k]];
      NextOf(k);
      r := Ok(curr.next);
    }

    lemma FirstStep(kind: Kind, node: Link, i: nat)
      requires Linked() && i < |Nodes| && Nodes[i] == node && node.op.ptr != [] && IntKey(node.op.ptr).Ok?
      ensures AtStep(kind, node, node.next, Entries(), i, i + 1, [], IntKey(node.op.ptr).value)
    {
      NextOf(i);
      StartUndo(Entries(), i, kind);
    }

    lemma LastStep(kind: Kind, node: Link, E0: seq<Entry>, i: nat, k: nat, done: seq<Entry>, key: int)
      requires AtStep(kind, node, root, E0, i, k, done, key)
      ensures UndoneFrom(kind, E0, i) == Ok((done, key)) && |done| == |E0| - i - 1
      ensures PartlyRenumbered(E0, i, Rekeyed(E0[i].op.ptr, E0[i + 1..], key), done, Entries())
    {
      EndUndo(kind, E0, i, done, key, Entries(), node.op.ptr);
    }

    /**
     The loop over the operations after node: each is renumbered in place, and node's own key with it. Its
     key is read back and written at every step, as the property does.
     */
    method RenumberAfter(kind: Kind, node: Link, ghost i: nat)
      returns (r: Outcome<()>, ghost later: seq<Entry>, ghost key: int)
      requires Linked() && i < |Nodes| && Nodes[i] == node && node.op.ptr != [] && IntKey(node.op.ptr).Ok?
      modifies Nodes
      ensures Linked()
      ensures r.Raised? ==> UndoneFrom(kind, old(Entries()), i) == Raised(r.error)
      ensures r.Ok? ==>
                && UndoneFrom(kind, old(Entries()), i) == Ok((later, key)) && |later| == |Nodes| - i - 1
                && PartlyRenumbered(old(Entries()), i, Rekeyed(old(node.op.ptr), old(Entries())[i + 1..], key), later,
                                    Entries())
    {
      ghost var E0, k := Entries(), i + 1;
      FirstStep(kind, node, i);
      r, k, later, key := RenumberFrom(kind, node, node.next, E0, i, IntKey(node.op.ptr).value);
      if r.Ok? {
        LastStep(kind, node, E0, i, k, later, key);
      } else {
        RemainingIs(kind, E0, i + 1, ParentPath(E0[i].op.ptr), IntKey(E0[i].op.ptr).value);
      }
    }

    /** The loop itself, from the node behind. */
    method RenumberFrom(kind: Kind, node: Link, start: Link, ghost E0: seq<Entry>, ghost i: nat, ghost key0: int)
      returns (r: Outcome<()>, ghost k: nat, ghost later: seq<Entry>, ghost key: int)
      requires AtStep(kind, node, start, E0, i, i + 1, [], key0)
      modifies Nodes`op
      ensures Linked()
      ensures r.Raised? ==> Fails(kind, E0, i, r.error)
      ensures r.Ok? ==> AtStep(kind, node, root, E0, i, k, later, key) == true
    {
      k, later, key := i + 1, [], key0;
      var curr := start;
      while curr != root
        invariant AtStep(kind, node, curr, E0, i, k, later, key) == true
        decreases |Nodes| - k
      {
        var next;
        next, later, key := RenumberNext(kind, node, curr, E0, i, k, later, key);
        if next.Raised? {
          return Raised(next.error), k, later, key;
        }
        curr, k := next.value, k + 1;
      }
      return Ok(()), k, later, key;
    }

    // ----- recording -----------------------------------------------------------------------

    /** A move replaces the pair at the end of the list, unless it would lead to where it starts. */
    method InsertMove(source: Pointer, ptr: Pointer, ghost item: Json)
      requires Valid()
      modifies this`Nodes, this`hashed, this`listed, root, Nodes
      ensures Valid() && Entries() == old(Entries()) + MoveUnlessSame(source, ptr, item)
      ensures forall n :: n in Nodes ==> n in old(Nodes) || fresh(n)
    {
      if source != ptr {
        ghost var nodes, es := Nodes, Entries();
        var node := Insert(Move(source, ptr), item);
        MoveIndexed(hashed, listed, nodes, es, node, Entry(Move(source, ptr), item));
      }
    }

    /** The removal (or addition) at i has been found; it leaves the list. */
    method TakeOut(node: Link, ghost i: nat, ghost E0: seq<Entry>, ghost at: Pointer, ghost later: seq<Entry>)
      requires Linked() && i < |Nodes| && Nodes[i] == node && |E0| == |Nodes| && |later| == |Nodes| - i - 1
      requires PartlyRenumbered(E0, i, at, later, Entries())
      requires SameKinds(E0[i + 1..], later) && Indexed(Cut(Nodes, i), Cut(E0, i))
      modifies this`Nodes, root, Nodes
      ensures Valid() && Entries() == E0[..i] + later && node.op.ptr == at
      ensures forall k :: 0 <= k < |Nodes| ==> Nodes[k] in old(Nodes)
    {
      ghost var nodes := Nodes;
      assert node.op.ptr == at;
      Unlink(node, i);
      DistinctCut(nodes, i);
      CutRenumbered(E0, i, at, later, old(Entries()));
      KindsIndexed(hashed, listed, Cut(nodes, i), Cut(E0, i), Entries());
    }

    /** Appends an addition or a removal that has nothing to be joined with, and stores it. */
    method AppendStored(op: Op, item: Json, kind: Kind)
      requires Valid() && OfKind(Entry(op, item), kind)
      modifies this`Nodes, this`hashed, this`listed, root, Nodes
      ensures Valid() && Entries() == old(Entries()) + [Entry(op, item)]
      ensures forall n :: n in Nodes ==> n in old(Nodes) || fresh(n)
    {
      ghost var nodes, es := Nodes, Entries();
      var node := Insert(op, item);
      ghost var more := Entries();
      StoreIndex(item, node, kind, nodes, es, Entry(op, item));
      assert Nodes == nodes + [node] && Entries() == more == es + [Entry(op, item)];
    }

    /** The operation at i has been found and renumbered; a move from its place, or to it, ends the list. */
    method FinishMove(index: Link, ghost i: nat, ghost E0: seq<Entry>, ghost at: Pointer, ghost later: seq<Entry>,
                      ptr: Pointer, ghost item: Json)
      requires Linked() && i < |Nodes| && Nodes[i] == index && |E0| == |Nodes| && |later| == |Nodes| - i - 1
      requires PartlyRenumbered(E0, i, at, later, Entries())
      requires SameKinds(E0[i + 1..], later) && Indexed(Cut(Nodes, i), Cut(E0, i))
      modifies this`Nodes, this`hashed, this`listed, root, Nodes
      ensures Valid() && Entries() == E0[..i] + later + MoveUnlessSame(at, ptr, item)
      ensures forall n :: n in Nodes ==> n in old(Nodes) || fresh(n)
    {
      TakeOut(index, i, E0, at, later);
      InsertMove(index.op.ptr, ptr, item);
    }

    /** The removal at i is renumbered if need be, leaves the list, and a move is recorded instead. */
    method MoveFrom(index: Link, ghost i: nat, ptr: Pointer, isPosition: bool, ghost item: Json)
      returns (r: Outcome<()>)
      requires Linked() && i < |Nodes| && Nodes[i] == index && Indexed(Cut(Nodes, i), Cut(Entries(), i))
      modifies this`Nodes, this`hashed, this`listed, root, Nodes
      ensures Recorded(AddedFor(old(Entries()), i, ptr, isPosition, item), r)
      ensures forall n :: n in Nodes ==> n in old(Nodes) || fresh(n)
    {
      ghost var E0 := Entries();
      if index.op.ptr == [] {
        return Raised(PythonTypeError);
      }
      if isPosition && PyInt(Last(index.op.ptr)).Some? {
        ghost var at, later, key := index.op.ptr, [], 0;
        r, later, key := RenumberAfter(Removing, index, i);
        if r.Raised? {
          return;
        }
        UndoKinds(Removing, E0, i);
        FinishMove(index, i, E0, Rekeyed(at, E0[i + 1..], key), later, ptr, item);
      } else {
        FinishMove(index, i, E0, index.op.ptr, E0[i + 1..], ptr, item);
        r := Ok(());
      }
    }

    method AddItem(ptr: Pointer, isPosition: bool, item: Json) returns (r: Outcome<()>)
      requires Valid()
      modifies this`Nodes, this`hashed, this`listed, root, Nodes
      ensures Recorded(Added(old(Entries()), ptr, isPosition, item), r)
      ensures forall n :: n in Nodes ==> n in old(Nodes) || fresh(n)
    {
      ghost var E0, found := Entries(), LastMatch(Entries(), Removing, item);
      ghost var spec := Added(E0, ptr, isPosition, item);
      var index := TakeIndex(item, Removing, Nodes, Entries());
      if index == null {
        assert spec == Ok(E0 + [Entry(Add(ptr, item), item)]);
        AppendStored(Add(ptr, item), item, Adding);
        return Ok(());
      }
      assert spec == AddedFor(E0, found.value, ptr, isPosition, item);
      r := MoveFrom(index, found.value, ptr, isPosition, item);
    }

    /** _item_added. */
    method ItemAdded(ptr: Pointer, isPosition: bool, item: Json) returns (r: Outcome<()>)
      requires Valid() && Owned()
      modifies Repr
      ensures Recorded(Added(old(Entries()), ptr, isPosition, item), r)
      ensures Owned() && fresh(Repr - old(Repr))
    {
      ghost var spec := Added(Entries(), ptr, isPosition, item);
      r := AddItem(ptr, isPosition, item);
      assert Recorded(spec, r);
      Repr := Repr + set n | n in Nodes;
    }

    /** The last link becomes a move to the place of the addition, or goes if it would lead to itself. */
    method EndWithMove(newIndex: Link, target: Pointer, ghost nodes: seq<Link>, ghost es: seq<Entry>)
      requires Linked() && |nodes| == |es| && Nodes == nodes + [newIndex]
      requires Entries() == es + [Entry(newIndex.op, newIndex.item)] && Indexed(nodes, es)
      modifies this`Nodes, root`prev, root`next, Nodes`prev, Nodes`next, newIndex`op
      ensures Valid() && Entries() == es + MoveUnlessSame(old(newIndex.op.ptr), target, newIndex.item)
      ensures forall n :: n in Nodes ==> n in old(Nodes)
    {
      if newIndex.op.ptr != target {
        newIndex.op := Move(newIndex.op.ptr, target);
        assert Entries() == es + [Entry(newIndex.op, newIndex.item)];
        MoveIndexed(hashed, listed, nodes, es, newIndex, Entry(newIndex.op, newIndex.item));
      } else {
        Unlink(newIndex, |nodes|);
        assert Nodes == nodes && Entries() == es;
      }
    }

    /** The addition at i has been found and the later operations renumbered, the new removal last of all; it goes. */
    method CutOut(index: Link, newIndex: Link, ghost i: nat, ghost nodes: seq<Link>, ghost E0: seq<Entry>,
                  ghost e: Entry,
                  ghost at: Pointer, ghost later: seq<Entry>)
      requires Linked() && Nodes == nodes + [newIndex] && i < |nodes| == |E0| && nodes[i] == index
      requires |later| == |E0| - i && PartlyRenumbered(E0 + [e], i, at, later, Entries())
      requires SameKinds((E0 + [e])[i + 1..], later) && Indexed(Cut(nodes, i), Cut(E0, i))
      modifies this`Nodes, root`prev, root`next, Nodes`prev, Nodes`next
      ensures var es := E0[..i] + later[..|later| - 1];
              && Linked() && Nodes == Cut(nodes, i) + [newIndex] && |Cut(nodes, i)| == |es|
                 && Indexed(Cut(nodes, i), es)
              && Entries() == es + [Entry(newIndex.op, newIndex.item)]
      ensures newIndex.op == later[|later| - 1].op && newIndex.item == e.item && index.op.ptr == at
      ensures forall n :: n in Nodes ==> n in old(Nodes)
    {
      ghost var last := |later| - 1;
      ghost var es := E0[..i] + later[..last];
      RemovalCut(hashed, listed, nodes, newIndex, i, E0, e, at, later, Entries());
      Unlink(index, i);
      assert Nodes == Cut(nodes, i) + [newIndex] && Entries() == es + [later[last]];
      assert Nodes[|es|] == newIndex && Entries()[|es|] == later[last];
    }

    method RemoveItem(ptr: Pointer, item: Json) returns (r: Outcome<()>)
      requires Valid()
      modifies this`Nodes, this`hashed, this`listed, root, Nodes
      ensures Recorded(Removed(old(Entries()), ptr, item, dst), r)
      ensures forall n :: n in Nodes ==> n in old(Nodes) || fresh(n)
    {
      ghost var E0, found := Entries(), LastMatch(Entries(), Adding, item);
      ghost var spec := Removed(E0, ptr, item, dst);
      var index := TakeIndex(item, Adding, Nodes, Entries());
      if index == null {
        assert spec == Ok(E0 + [Entry(Remove(ptr), item)]);
        AppendStored(Remove(ptr), item, Removing);
        return Ok(());
      }
      assert spec == RemovedFor(E0, found.value, ptr, item, dst);
      r := MoveTo(index, found.value, ptr, item);
    }

    /** _item_removed. */
    method ItemRemoved(ptr: Pointer, item: Json) returns (r: Outcome<()>)
      requires Valid() && Owned()
      modifies Repr
      ensures Recorded(Removed(old(Entries()), ptr, item, dst), r)
      ensures Owned() && fresh(Repr - old(Repr))
    {
      ghost var spec := Removed(Entries(), ptr, item, dst);
      r := RemoveItem(ptr, item);
      assert Recorded(spec, r);
      Repr := Repr + set n | n in Nodes;
    }

    /** The new removal is recorded, and becomes a move to where the addition at i went. */
    method MoveTo(index: Link, ghost i: nat, ptr: Pointer, item: Json) returns (r: Outcome<()>)
      requires Linked() && i < |Nodes| && Nodes[i] == index && Indexed(Cut(Nodes, i), Cut(Entries(), i))
      modifies this`Nodes, this`hashed, this`listed, root, Nodes
      ensures Recorded(RemovedFor(old(Entries()), i, ptr, item, dst), r)
      ensures forall n :: n in Nodes ==> n in old(Nodes) || fresh(n)
    {
      ghost var E0, nodes, e := Entries(), Nodes, Entry(Remove(ptr), item);
      RemovedForCases(E0, i, ptr, item, dst);
      assert index.op == E0[i].op;
      var into := IntoList(dst, index.op.ptr);
      var newIndex := Insert(Remove(ptr), item);
      assert index.op == E0[i].op by {
        assert Entries()[i] == E0[i];
      }
      if into.Raised? {
        return Raised(into.error);
      }
      if into.value {
        ghost var later, key;
        r, later, key := MoveToList(index, newIndex, i, nodes, E0, e);
      } else {
        MoveToObject(index, newIndex, i, nodes, E0, e);
        r := Ok(());
      }
    }

    method MoveToObject(index: Link, newIndex: Link, ghost i: nat, ghost nodes: seq<Link>, ghost E0: seq<Entry>,
                        ghost e: Entry)
      requires Linked() && Nodes == nodes + [newIndex] && i < |nodes| == |E0| && nodes[i] == index
      requires Entries() == E0 + [e] && Indexed(Cut(nodes, i), Cut(E0, i)) && index.op == E0[i].op
      modifies this`Nodes, root, Nodes
      ensures Valid() && Entries() == E0[..i] + E0[i + 1..] + MoveUnlessSame(e.op.ptr, E0[i].op.ptr, e.item)
      ensures forall n :: n in Nodes ==> n in old(Nodes)
    {
      ghost var later := AsTheyWere(E0, i, e);
      CutOut(index, newIndex, i, nodes, E0, e, index.op.ptr, later);
      assert forall k :: 0 <= k < |Nodes| ==> Nodes[k] in old(Nodes);
      EndWithMove(newIndex, index.op.ptr, Cut(nodes, i), E0[..i] + later[..|later| - 1]);
    }

    method MoveToList(index: Link, newIndex: Link, ghost i: nat, ghost nodes: seq<Link>, ghost E0: seq<Entry>,
                      ghost e: Entry)
      returns (r: Outcome<()>, ghost later: seq<Entry>, ghost key: int)
      requires Linked() && Nodes == nodes + [newIndex] && i < |nodes| == |E0| && nodes[i] == index
      requires Entries() == E0 + [e] && Indexed(Cut(nodes, i), Cut(E0, i))
      requires index.op == E0[i].op && index.op.ptr != [] && IntKey(index.op.ptr).Ok?
      modifies this`Nodes, root, Nodes
      ensures r.Raised? ==> UndoneFrom(Adding, E0 + [e], i) == Raised(r.error)
      ensures r.Ok? ==> UndoneFrom(Adding, E0 + [e], i) == Ok((later, key)) && |later| == |E0| - i
      ensures r.Ok? ==> Valid() && Entries() == EndOfMove(E0, e, i, later, key)
      ensures forall n :: n in Nodes ==> n in old(Nodes)
    {
      r, later, key := RenumberAfter(Adding, index, i);
      if r.Ok? {
        UndoKinds(Adding, E0 + [e], i);
        ghost var at := Rekeyed(E0[i].op.ptr, (E0 + [e])[i + 1..], key);
        CutOut(index, newIndex, i, nodes, E0, e, at, later);
        assert forall k :: 0 <= k < |Nodes| ==> Nodes[k] in old(Nodes);
        EndWithMove(newIndex, index.op.ptr, Cut(nodes, i), E0[..i] + later[..|later| - 1]);
      }
    }

    /** _item_replaced. */
    method ItemReplaced(ptr: Pointer, item: Json)
      requires Valid() && Owned()
      modifies Repr
      ensures Valid() && Entries() == Replaced(old(Entries()), ptr, item)
      ensures Owned() && fresh(Repr - old(Repr))
    {
      ghost var nodes, es, e := Nodes, Entries(), Entry(Replace(ptr, item), item);
      var node := Insert(Replace(ptr, item), item);
      assert Nodes == nodes + [node] && Entries() == es + [e];
      MoveIndexed(hashed, listed, nodes, es, node, e);
      assert Valid();
      Repr := Repr + {node};
    }

    // ----- comparing -----------------------------------------------------------------------

    /** The loop over the members that only the source has. */
    method RemoveNames(ptr: Pointer, names: seq<string>, src: map<string, Json>) returns (r: Outcome<()>)
      requires Valid() && Owned() && forall n :: n in names ==> n in src
      modifies Repr
      ensures Recorded(RemoveMembers(old(Entries()), ptr, names, src, dst), r)
      ensures Owned() && fresh(Repr - old(Repr))
    {
      ghost var E0 := Entries();
      for i := 0 to |names|
        invariant Valid() && Owned() && fresh(Repr - old(Repr))
        invariant RemoveMembers(E0, ptr, names, src, dst) == RemoveMembers(Entries(), ptr, names[i..], src, dst)
      {
        assert names[i..][0] == names[i] && names[i..][1..] == names[i + 1..];
        r := ItemRemoved(ptr + [names[i]], src[names[i]]);
        if r.Raised? {
          return;
        }
      }
      r := Ok(());
    }

    /** The loop over the members that only the target has. */
    method AddNames(ptr: Pointer, names: seq<string>, tgt: map<string, Json>) returns (r: Outcome<()>)
      requires Valid() && Owned() && forall n :: n in names ==> n in tgt
      modifies Repr
      ensures Recorded(AddMembers(old(Entries()), ptr, names, tgt), r)
      ensures Owned() && fresh(Repr - old(Repr))
    {
      ghost var E0 := Entries();
      for i := 0 to |names|
        invariant Valid() && Owned() && fresh(Repr - old(Repr))
        invariant AddMembers(E0, ptr, names, tgt) == AddMembers(Entries(), ptr, names[i..], tgt)
      {
        assert names[i..][0] == names[i] && names[i..][1..] == names[i + 1..];
        r := ItemAdded(ptr + [names[i]], false, tgt[names[i]]);
        if r.Raised? {
          return;
        }
      }
      r := Ok(());
    }

    /** _compare_dicts. */
    method RecordDicts(ptr: Pointer, src: Json, tgt: Json) returns (r: Outcome<()>)
      requires Valid() && Owned() && Complete(order) && src.Obj? && tgt.Obj?
      modifies Repr
      ensures Recorded(CompareDicts(order, dst, old(Entries()), ptr, src, tgt), r)
      ensures Owned() && fresh(Repr - old(Repr))
      decreases src, 2, 0
    {
      ghost var E0 := Entries();
      var gone := order(ptr, src.members.Keys - tgt.members.Keys);
      var come := order(ptr, tgt.members.Keys - src.members.Keys);
      var both := order(ptr, src.members.Keys * tgt.members.Keys);
      assert Lists(gone, src.members.Keys - tgt.members.Keys) && Lists(come, tgt.members.Keys - src.members.Keys);
      assert Lists(both, src.members.Keys * tgt.members.Keys);
      r := RemoveNames(ptr, gone, src.members);
      if r.Raised? {
        return;
      }
      r := AddNames(ptr, come, tgt.members);
      if r.Raised? {
        return;
      }
      r := RecordNames(ptr, both, src, tgt);
    }

    /** The loop over the members that both have. */
    method RecordNames(ptr: Pointer, names: seq<string>, src: Json, tgt: Json) returns (r: Outcome<()>)
      requires Valid() && Owned() && Complete(order) && src.Obj? && tgt.Obj?
      requires forall n :: n in names ==> n in src.members && n in tgt.members
      modifies Repr
      ensures Recorded(CompareMembers(order, dst, old(Entries()), ptr, names, src, tgt), r)
      ensures Owned() && fresh(Repr - old(Repr))
      decreases src, 1, 0
    {
      ghost var E0 := Entries();
      for i := 0 to |names|
        invariant Valid() && Owned() && fresh(Repr - old(Repr))
        invariant CompareMembers(order, dst, E0, ptr, names, src, tgt)
                  == CompareMembers(order, dst, Entries(), ptr, names[i..], src, tgt)
      {
        assert names[i..][0] == names[i] && names[i..][1..] == names[i + 1..];
        r := RecordValues(ptr + [names[i]], src.members[names[i]], tgt.members[names[i]]);
        if r.Raised? {
          return;
        }
      }
      r := Ok(());
    }

    /** _compare_lists. */
    method RecordLists(ptr: Pointer, src: Json, tgt: Json) returns (r: Outcome<()>)
      requires Valid() && Owned() && Complete(order) && src.Arr? && tgt.Arr?
      modifies Repr
      ensures Recorded(CompareLists(order, dst, old(Entries()), ptr, 0, src, tgt), r)
      ensures Owned() && fresh(Repr - old(Repr))
      decreases src, 1, 0
    {
      ghost var E0 := Entries();
      var maxLen := Max(|src.items|, |tgt.items|);
      for key := 0 to maxLen
        invariant Valid() && Owned() && fresh(Repr - old(Repr))
        invariant CompareLists(order, dst, E0, ptr, 0, src, tgt) ==
                    CompareLists(order, dst, Entries(), ptr, key, src, tgt)
      {
        r := RecordElement(ptr, key, src, tgt);
        if r.Raised? {
          return;
        }
      }
      r := Ok(());
    }

    method Exchange(here: Pointer, was: Json, now: Json) returns (r: Outcome<()>)
      requires Valid() && Owned()
      modifies Repr
      ensures Recorded(Exchanged(old(Entries()), here, was, now, dst), r)
      ensures Owned() && fresh(Repr - old(Repr))
    {
      r := ItemRemoved(here, was);
      if r.Ok? {
        r := ItemAdded(here, true, now);
      }
    }

    /** The body of that loop. */
    method RecordElement(ptr: Pointer, key: nat, src: Json, tgt: Json) returns (r: Outcome<()>)
      requires Valid() && Owned() && Complete(order) && src.Arr? && tgt.Arr? && key < Max(|src.items|, |tgt.items|)
      modifies Repr
      ensures Recorded(CompareElement(order, dst, old(Entries()), ptr, key, src, tgt), r)
      ensures Owned() && fresh(Repr - old(Repr))
      decreases src, 0, 0
    {
      var here := ptr + [Dec(key)];
      if key < |src.items| && key < |tgt.items| {
        var was, now := src.items[key], tgt.items[key];
        if was == now {
          r := Ok(());
        } else if was.Obj? && now.Obj? {
          r := RecordDicts(here, was, now);
        } else if was.Arr? && now.Arr? {
          r := RecordLists(here, was, now);
        } else {
          r := Exchange(here, was, now);
        }
      } else if |src.items| > |tgt.items| {
        r := ItemRemoved(ptr + [Dec(|tgt.items|)], src.items[key]);
      } else {
        r := ItemAdded(here, true, tgt.items[key]);
      }
    }

    /** _compare_values. */
    method RecordValues(ptr: Pointer, src: Json, tgt: Json) returns (r: Outcome<()>)
      requires Valid() && Owned() && Complete(order)
      modifies Repr
      ensures Recorded(CompareValues(order, dst, old(Entries()), ptr, src, tgt), r)
      ensures Owned() && fresh(Repr - old(Repr))
      decreases src, 3, 0
    {
      if src.Obj? && tgt.Obj? {
        r := RecordDicts(ptr, src, tgt);
      } else if src.Arr? && tgt.Arr? {
        r := RecordLists(ptr, src, tgt);
      } else if src == tgt {
        r := Ok(());
      } else {
        ItemReplaced(ptr, tgt);
        r := Ok(());
      }
    }

    // ----- the result ------------------------------------------------------------------------

    /** execute: from the first link on, a removal and the addition after it at the same place become one. */
    method Execute() returns (patch: seq<Op>)
      requires Linked()
      ensures patch == Fuse(Ops(Entries()))
    {
      patch := [];
      ghost var k, ops := 0, Ops(Entries());
      var curr := root.next;
      while curr != root
        invariant 0 <= k <= |Nodes| && curr == (if k < |Nodes| then Nodes[k] else root)
        invariant Fuse(ops) == patch + Fuse(ops[k..])
        decreases |Nodes| - k
      {
        NextOf(k);
        assert ops[k] == curr.op;
        assert k + 1 < |ops| ==> curr.next == Nodes[k + 1] && ops[k + 1] == curr.next.op;
        if curr.next != root {
          NextOf(k + 1);
          var first, second := curr.op, curr.next.op;
          if first.ptr == second.ptr && first.Remove? && second.Add? {
            FusePairAt(ops, k, patch);
            patch := patch + [Replace(second.ptr, second.value)];
            curr, k := curr.next.next, k + 2;
            continue;
          }
        }
        FuseOneAt(ops, k, patch);
        patch := patch + [curr.op];
        curr, k := curr.next, k + 1;
      }
      assert ops[k..] == [];
    }
  }

  lemma FusePairAt(ops: seq<Op>, k: nat, patch: seq<Op>)
    requires k + 1 < |ops| && ops[k].Remove? && ops[k + 1].Add? && ops[k].ptr == ops[k + 1].ptr
    ensures patch + Fuse(ops[k..]) == patch + [Replace(ops[k + 1].ptr, ops[k + 1].value)] + Fuse(ops[k + 2..])
  {
    assert ops[k..][2..] == ops[k + 2..];
    FuseTail(ops[k..]);
  }

  lemma FuseOneAt(ops: seq<Op>, k: nat, patch: seq<Op>)
    requires k < |ops|
    requires k + 1 < |ops| ==> !(ops[k].Remove? && ops[k + 1].Add? && ops[k].ptr == ops[k + 1].ptr)
    ensures patch + Fuse(ops[k..]) == patch + [ops[k]] + Fuse(ops[k + 1..])
  {
    assert ops[k..][1..] == ops[k + 1..];
  }

  /** from_diff. */
  method MakePatch(src: Json, dst: Json, order: Order) returns (r: Outcome<seq<Op>>)
    requires Complete(order)
    ensures r == FromDiff(order, src, dst)
  {
    var builder := new Builder(dst, order);
    var compared := builder.RecordValues([], src, dst);
    if compared.Raised? {
      return Raised(compared.error);
    }
    var patch := builder.Execute();
    r := Ok(patch);
  }

  /** The whole renumbering for the entry at i. */
  function UndoneFrom(kind: Kind, es: seq<Entry>, i: nat): Outcome<(seq<Entry>, int)>
    requires i < |es| && es[i].op.ptr != [] && IntKey(es[i].op.ptr).Ok?
  {
    UndoAll(kind, es[i + 1..], ParentPath(es[i].op.ptr), IntKey(es[i].op.ptr).value)
  }

  /** The renumbering of the entries from k on. */
  function Remaining(kind: Kind, es: seq<Entry>, k: nat, path: string, key: int): Outcome<(seq<Entry>, int)>
    requires k <= |es|
    decreases |es| - k
  {
    if k == |es| then Ok(([], key))
    else
      var (op, key') :- Undo(kind, es[k].op, path, key);
      var (rest, key'') :- Remaining(kind, es, k + 1, path, key');
      Ok(([Entry(op, es[k].item)] + rest, key''))
  }

  /** The renumbering for the entry at i ends with an error. */
  ghost predicate Fails(kind: Kind, es: seq<Entry>, i: nat, error: Error) {
    && i < |es| && es[i].op.ptr != [] && IntKey(es[i].op.ptr).Ok?
    && Remaining(kind, es, i + 1, ParentPath(es[i].op.ptr), IntKey(es[i].op.ptr).value) == Raised(error)
  }

  lemma {:induction false} RemainingIs(kind: Kind, es: seq<Entry>, k: nat, path: string, key: int)
    requires k <= |es|
    ensures Remaining(kind, es, k, path, key) == UndoAll(kind, es[k..], path, key)
    decreases |es| - k
  {
    if k < |es| {
      assert es[k..][0] == es[k] && es[k..][1..] == es[k + 1..];
      var u := Undo(kind, es[k].op, path, key);
      if u.Ok? { RemainingIs(kind, es, k + 1, path, u.value.1); }
    }
  }

  /** Two entries after one step: node's with its new pointer, and the renumbered one. */
  function Stepped(es: seq<Entry>, i: nat, k: nat, ptr: Pointer, op: Op): seq<Entry>
    requires i < k < |es|
  {
    es[i := Entry(es[i].op.(ptr := ptr), es[i].item)][k := Entry(op, es[k].item)]
  }

  /** The loop has renumbered the operations before k; the rest of the work gives the whole result. */
  ghost predicate Undoing(kind: Kind, E0: seq<Entry>, i: nat, k: nat, done: seq<Entry>, key: int, es: seq<Entry>,
                          at: Pointer)
    requires i < k <= |E0|
  {
    var ptr := E0[i].op.ptr;
    && ptr != [] && IntKey(ptr).Ok? && |done| == k - i - 1
    && at == (if k == i + 1 then ptr else WithKey(ptr, key))
    && ParentPath(at) == ParentPath(ptr) && IntKey(at) == Ok(key)
    && PartlyRenumbered(E0, i, at, done, es)
    && Remaining(kind, E0, i + 1, ParentPath(ptr), IntKey(ptr).value) ==
         After(done, Remaining(kind, E0, k, ParentPath(ptr), key))
  }

  /** The entry at i points to at, the next ones are done, and the others are as they were. */
  ghost predicate PartlyRenumbered(E0: seq<Entry>, i: nat, at: Pointer, done: seq<Entry>, es: seq<Entry>)
    requires i < |E0|
  {
    && |es| == |E0| && i + |done| < |E0| && es[i] == Entry(E0[i].op.(ptr := at), E0[i].item)
    && (forall j :: 0 <= j < i ==> es[j] == E0[j])
    && (forall j :: 0 <= j < |done| ==> es[i + 1 + j] == done[j])
    && (forall j :: i + |done| < j < |es| ==> es[j] == E0[j])
  }

  lemma CutRenumbered(E0: seq<Entry>, i: nat, at: Pointer, later: seq<Entry>, es: seq<Entry>)
    requires i < |E0| && |later| == |E0| - i - 1 && PartlyRenumbered(E0, i, at, later, es)
    requires SameKinds(E0[i + 1..], later)
    ensures Cut(es, i) == E0[..i] + later && SameKinds(Cut(E0, i), Cut(es, i))
  {
    var rest := E0[i + 1..];
    assert forall j :: 0 <= j < |later| ==> rest[j] == E0[i + 1 + j];
  }

  lemma CutAppended<T>(s: seq<T>, x: T, i: nat)
    requires i < |s|
    ensures Cut(s + [x], i) == Cut(s, i) + [x]
  {
  }

  /** The list once the addition at i and the removal e at the end have become a move. */
  function EndOfMove(E0: seq<Entry>, e: Entry, i: nat, later: seq<Entry>, key: int): seq<Entry>
    requires i < |E0| && E0[i].op.ptr != [] && |later| == |E0| - i
  {
    var last := |later| - 1;
    E0[..i] + later[..last]
    + MoveUnlessSame(later[last].op.ptr, Rekeyed(E0[i].op.ptr, (E0 + [e])[i + 1..], key), e.item)
  }

  /** The explicit check on the container of the addition: did the value go into a list? */
  function IntoList(dst: Json, taken: Pointer): Outcome<bool> {
    if taken == [] then
      if dst.Arr? then Raised(PythonTypeError) else Ok(false)
    else
      var (container, _) :- ToLast(dst, taken);
      if !container.Arr? then Ok(false)
      else
        var _ :- IntKey(taken);
        Ok(true)
  }

  lemma RemovedForMember(E0: seq<Entry>, i: nat, ptr: Pointer, item: Json, dst: Json)
    requires i < |E0|
    ensures IntoList(dst, E0[i].op.ptr).Raised? ==>
              RemovedFor(E0, i, ptr, item, dst) == Raised(IntoList(dst, E0[i].op.ptr).error)
    ensures IntoList(dst, E0[i].op.ptr) == Ok(false) ==>
              RemovedFor(E0, i, ptr, item, dst) == Ok(E0[..i] + E0[i + 1..] + MoveUnlessSame(ptr, E0[i].op.ptr, item))
  {
  }

  lemma RemovedForPosition(E0: seq<Entry>, i: nat, ptr: Pointer, item: Json, dst: Json)
    requires i < |E0| && IntoList(dst, E0[i].op.ptr) == Ok(true)
    ensures E0[i].op.ptr != [] && IntKey(E0[i].op.ptr).Ok?
    ensures var e := Entry(Remove(ptr), item);
            match UndoneFrom(Adding, E0 + [e], i)
            case Raised(error) => RemovedFor(E0, i, ptr, item, dst) == Raised(error)
            case Ok((later, key)) => RemovedFor(E0, i, ptr, item, dst) == Ok(EndOfMove(E0, e, i, later, key))
  {
    AppendedParts(E0, i, Entry(Remove(ptr), item));
    match UndoneFrom(Adding, E0 + [Entry(Remove(ptr), item)], i)
    case Raised(_) =>
    case Ok((later, key)) => assert |later| == |E0| - i;
  }

  lemma RemovedForCases(E0: seq<Entry>, i: nat, ptr: Pointer, item: Json, dst: Json)
    requires i < |E0|
    ensures IntoList(dst, E0[i].op.ptr).Raised? ==>
              RemovedFor(E0, i, ptr, item, dst) == Raised(IntoList(dst, E0[i].op.ptr).error)
    ensures IntoList(dst, E0[i].op.ptr) == Ok(false) ==>
              RemovedFor(E0, i, ptr, item, dst) == Ok(E0[..i] + E0[i + 1..] + MoveUnlessSame(ptr, E0[i].op.ptr, item))
    ensures IntoList(dst, E0[i].op.ptr) == Ok(true) ==>
              && E0[i].op.ptr != [] && IntKey(E0[i].op.ptr).Ok?
              && var e := Entry(Remove(ptr), item);
                 match UndoneFrom(Adding, E0 + [e], i)
                 case Raised(error) => RemovedFor(E0, i, ptr, item, dst) == Raised(error)
                 case Ok((later, key)) => RemovedFor(E0, i, ptr, item, dst) == Ok(EndOfMove(E0, e, i, later, key))
  {
    RemovedForMember(E0, i, ptr, item, dst);
    if IntoList(dst, E0[i].op.ptr) == Ok(true) { RemovedForPosition(E0, i, ptr, item, dst); }
  }

  lemma AsTheyWere(E0: seq<Entry>, i: nat, e: Entry) returns (later: seq<Entry>)
    requires i < |E0|
    ensures |later| == |E0| - i && later[..|later| - 1] == E0[i + 1..] && later[|later| - 1] == e
    ensures PartlyRenumbered(E0 + [e], i, E0[i].op.ptr, later, E0 + [e]) && SameKinds((E0 + [e])[i + 1..], later)
  {
    NotRenumbered(E0 + [e], i);
    AppendedParts(E0, i, e);
    later := (E0 + [e])[i + 1..];
  }

  lemma AppendedParts(E0: seq<Entry>, i: nat, e: Entry)
    requires i < |E0|
    ensures var E1 := E0 + [e];
            && E1[..|E1| - 1] == E0 && E1[..i] == E0[..i] && E1[|E1| - 1] == e
            && E1[i + 1..] == E0[i + 1..] + [e]
            && (E0[i + 1..] + [e])[..|E0| - i - 1] == E0[i + 1..]
  {
  }

  lemma NotRenumbered(es: seq<Entry>, i: nat)
    requires i < |es|
    ensures PartlyRenumbered(es, i, es[i].op.ptr, es[i + 1..], es) && SameKinds(es[i + 1..], es[i + 1..])
  {
  }

  /** What is left when the addition at i is cut out of the nodes, the new removal still last. */
  lemma RemovalCut(hashed: seq<map<Json, seq<Link>>>, listed: seq<seq<(Json, Link)>>, nodes: seq<Link>, newIndex: Link,
                   i: nat,
                   E0: seq<Entry>, e: Entry, at: Pointer, later: seq<Entry>, cur: seq<Entry>)
    requires i < |nodes| == |E0| && |later| == |E0| - i && PartlyRenumbered(E0 + [e], i, at, later, cur)
    requires SameKinds((E0 + [e])[i + 1..], later) && IndexedBy(hashed, listed, Cut(nodes, i), Cut(E0, i))
    ensures var es := E0[..i] + later[..|later| - 1];
            && Cut(nodes + [newIndex], i) == Cut(nodes, i) + [newIndex]
            && |Cut(nodes, i)| == |es| && IndexedBy(hashed, listed, Cut(nodes, i), es)
            && Cut(cur, i) == es + [later[|later| - 1]] && later[|later| - 1].item == e.item
  {
    CutAppended(nodes, newIndex, i);
    CutRenumbered(E0 + [e], i, at, later, cur);
    AppendedKinds(E0, e, i, later);
    KindsIndexed(hashed, listed, Cut(nodes, i), Cut(E0, i), E0[..i] + later[..|later| - 1]);
  }

  lemma AppendedKinds(E0: seq<Entry>, e: Entry, i: nat, later: seq<Entry>)
    requires i < |E0| && |later| == |E0| - i && SameKinds((E0 + [e])[i + 1..], later)
    ensures SameKinds(Cut(E0, i), E0[..i] + later[..|later| - 1])
    ensures (E0 + [e])[..i] == E0[..i] && later == later[..|later| - 1] + [later[|later| - 1]]
    ensures later[|later| - 1].item == e.item
  {
    var rest := (E0 + [e])[i + 1..];
    assert forall j :: 0 <= j < |later| ==> rest[j] == (E0 + [e])[i + 1 + j];
  }

  lemma UndoKinds(kind: Kind, es: seq<Entry>, i: nat)
    requires i < |es| && es[i].op.ptr != [] && IntKey(es[i].op.ptr).Ok? && UndoneFrom(kind, es, i).Ok?
    ensures SameKinds(es[i + 1..], UndoneFrom(kind, es, i).value.0)
  {
    UndoAllKinds(kind, es[i + 1..], ParentPath(es[i].op.ptr), IntKey(es[i].op.ptr).value);
  }

  lemma AfterNothing(r: Outcome<(seq<Entry>, int)>)
    ensures After([], r) == r
  {
    if r.Ok? {
      assert [] + r.value.0 == r.value.0;
    }
  }

  lemma StartUndo(E0: seq<Entry>, i: nat, kind: Kind)
    requires i < |E0| && E0[i].op.ptr != [] && IntKey(E0[i].op.ptr).Ok?
    ensures Undoing(kind, E0, i, i + 1, [], IntKey(E0[i].op.ptr).value, E0, E0[i].op.ptr)
  {
    var ptr := E0[i].op.ptr;
    AfterNothing(Remaining(kind, E0, i + 1, ParentPath(ptr), IntKey(ptr).value));
  }

  lemma StepUndo(kind: Kind, E0: seq<Entry>, i: nat, k: nat, done: seq<Entry>, key: int, es: seq<Entry>, at: Pointer)
    requires i < k < |E0| && Undoing(kind, E0, i, k, done, key, es, at)
    ensures |es| == |E0| && es[k] == E0[k] && at != []
    ensures var ptr := E0[i].op.ptr;
            match Undo(kind, E0[k].op, ParentPath(ptr), key)
            case Raised(e) => Remaining(kind, E0, i + 1, ParentPath(ptr), IntKey(ptr).value) == Raised(e)
            case Ok((op, key')) =>
              var es' := Stepped(es, i, k, WithKey(at, key'), op);
              && es'[k] == Entry(op, E0[k].item)
              && Undoing(kind, E0, i, k + 1, done + [es'[k]], key', es', WithKey(at, key'))
  {
    var ptr := E0[i].op.ptr;
    RemainingStep(kind, E0, k, ParentPath(ptr), key, done);
    if Undo(kind, E0[k].op, ParentPath(ptr), key).Ok? {
      var (op, key') := Undo(kind, E0[k].op, ParentPath(ptr), key).value;
      WithKeyAgain(ptr, key, key');
      var es' := Stepped(es, i, k, WithKey(at, key'), op);
      assert forall j :: 0 <= j < |es| && j != i && j != k ==> es'[j] == es[j];
    }
  }

  lemma EndUndo(kind: Kind, E0: seq<Entry>, i: nat, done: seq<Entry>, key: int, es: seq<Entry>, at: Pointer)
    requires i < |E0| && Undoing(kind, E0, i, |E0|, done, key, es, at)
    ensures UndoneFrom(kind, E0, i) == Ok((done, key)) && |done| == |E0| - i - 1
    ensures PartlyRenumbered(E0, i, Rekeyed(E0[i].op.ptr, E0[i + 1..], key), done, es)
  {
    var ptr := E0[i].op.ptr;
    RemainingIs(kind, E0, i + 1, ParentPath(ptr), IntKey(ptr).value);
    assert done + [] == done;
  }

  lemma RemainingStep(kind: Kind, E0: seq<Entry>, k: nat, path: string, key: int, done: seq<Entry>)
    requires k < |E0|
    ensures After(done, Remaining(kind, E0, k, path, key)) ==
            (match Undo(kind, E0[k].op, path, key)
             case Raised(e) => Raised(e)
             case Ok((op, key')) => After(done + [Entry(op, E0[k].item)], Remaining(kind, E0, k + 1, path, key')))
  {
    if Undo(kind, E0[k].op, path, key).Ok? {
      var (op, key') := Undo(kind, E0[k].op, path, key).value;
      var x := Entry(op, E0[k].item);
      match Remaining(kind, E0, k + 1, path, key') {
        case Raised(_) =>
        case Ok((rest, _)) => assert done + ([x] + rest) == (done + [x]) + rest;
      }
    }
  }

  function After(done: seq<Entry>, r: Outcome<(seq<Entry>, int)>): Outcome<(seq<Entry>, int)> {
    match r
    case Raised(e) => Raised(e)
    case Ok((rest, key)) => Ok((done + rest, key))
  }

  lemma WithKeyAgain(ptr: Pointer, key: int, key': int)
    requires ptr != []
    ensures WithKey(WithKey(ptr, key), key') == WithKey(ptr, key')
    ensures ParentPath(WithKey(ptr, key)) == ParentPath(ptr)
    ensures IntKey(WithKey(ptr, key')) == Ok(key') && ParentPath(WithKey(ptr, key')) == ParentPath(ptr)
  {
    PyIntStr(key');
    assert Front(WithKey(ptr, key)) == Front(ptr) && Front(WithKey(ptr, key')) == Front(ptr);
    assert Last(WithKey(ptr, key')) == Str(key');
  }
}
